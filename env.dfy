/** The environment store of `src/engine/env.rs`: the shell's variables, the
    `pushd`/`popd` directory stack, and the deduplicating `PATH` insert. The
    process's working directory is a field, and the results of the operating
    system calls that read or change it are parameters. */
module Env {
  import opened Wrappers
  import opened Strings

  /** `s` back to front. */
  function Reversed(s: seq<string>): (r: seq<string>)
    ensures |r| == |s|
    ensures forall k :: 0 <= k < |s| ==> r[k] == s[|s| - 1 - k]
  {
    if s == [] then [] else Reversed(s[1..]) + [s[0]]
  }

  /** `retain(|p| p != target)`: the entries other than `t`, in order. */
  function Removed(ps: seq<string>, t: string): (r: seq<string>)
    ensures |r| <= |ps|
    ensures forall k :: 0 <= k < |r| ==> r[k] != t
  {
    if ps == [] then []
    else if ps[0] == t then Removed(ps[1..], t)
    else [ps[0]] + Removed(ps[1..], t)
  }

  /** An entry survives `Removed` exactly when it was there and is not `t`. */
  lemma {:induction false} RemovedMembers(ps: seq<string>, t: string, x: string)
    ensures x in Removed(ps, t) <==> x in ps && x != t
  {
    if ps != [] {
      RemovedMembers(ps[1..], t, x);
      assert ps == [ps[0]] + ps[1..];
    }
  }

  /** Removing `t` from a list without `t` changes nothing. */
  lemma {:induction false} RemovedAbsent(ps: seq<string>, t: string)
    requires t !in ps
    ensures Removed(ps, t) == ps
  {
    if ps != [] {
      RemovedAbsent(ps[1..], t);
      assert ps == [ps[0]] + ps[1..];
    }
  }

  /** `Removed` works piece by piece. */
  lemma {:induction false} RemovedAppend(a: seq<string>, b: seq<string>, t: string)
    ensures Removed(a + b, t) == Removed(a, t) + Removed(b, t)
  {
    if a == [] {
      assert a + b == b;
    } else {
      assert (a + b)[1..] == a[1..] + b;
      RemovedAppend(a[1..], b, t);
    }
  }

  /** The entries after `add_to_path`: `t` once, at the front or at the end. */
  function Placed(ps: seq<string>, t: string, front: bool): seq<string> {
    if front then [t] + Removed(ps, t) else Removed(ps, t) + [t]
  }

  /** In `Placed`, `t` sits first when `front` and last otherwise, nowhere
      else, and the other entries are the old ones in their old order. */
  lemma {:induction false} PlacedOnce(ps: seq<string>, t: string, front: bool)
    ensures var r := Placed(ps, t, front);
      && |r| >= 1
      && (if front then r[0] == t else r[|r| - 1] == t)
      && (forall k :: 0 <= k < |r| && r[k] == t ==> k == (if front then 0 else |r| - 1))
      && Removed(r, t) == Removed(ps, t)
  {
    var rest := Removed(ps, t);
    RemovedAbsent(rest, t);
    assert Removed([t], t) == [];
    if front {
      RemovedAppend([t], rest, t);
      assert [] + rest == rest;
    } else {
      RemovedAppend(rest, [t], t);
      assert rest + [] == rest;
    }
  }

  /** `env::split_paths` of the `PATH` value, with a missing value read as
      the empty string. */
  function PathEntries(vars: map<string, string>): (r: seq<string>)
    ensures |r| >= 1
  {
    Split(if "PATH" in vars then vars["PATH"] else "", ':')
  }

  /** Reading `PATH` back after `add_to_path` stored it gives the placed
      entries. */
  lemma {:induction false} PathReadBack(vars: map<string, string>, t: string, front: bool)
    requires ':' !in t
    ensures var ps := Placed(PathEntries(vars), t, front);
      PathEntries(vars["PATH" := Join(ps, [':'])]) == ps
  {
    var old_ps := PathEntries(vars);
    var ps := Placed(old_ps, t, front);
    PlacedOnce(old_ps, t, front);
    forall k | 0 <= k < |ps| ensures ':' !in ps[k] {
      if ps[k] != t {
        RemovedMembers(old_ps, t, ps[k]);
        var j :| 0 <= j < |old_ps| && old_ps[j] == ps[k];
      }
    }
    SplitJoin(ps, ':');
  }

  /** `EnvManager`. */
  class EnvManager {
    var vars: map<string, string>
    var dirStack: seq<string>
    /** The process's current directory. */
    var cwd: string

    /** `EnvManager::new`, from the inherited environment. */
    constructor (inherited: map<string, string>, dir: string)
      ensures vars == inherited && dirStack == [] && cwd == dir
    {
      vars := inherited;
      dirStack := [];
      cwd := dir;
    }

    /** `set_var`. */
    method SetVar(key: string, value: string)
      modifies this`vars
      ensures vars == old(vars)[key := value]
    {
      vars := vars[key := value];
    }

    /** `remove_var`. */
    method RemoveVar(key: string)
      modifies this`vars
      ensures vars == old(vars) - {key}
    {
      vars := vars - {key};
    }

    /** `get_var`. */
    function GetVar(key: string): (r: Option<string>)
      reads this
      ensures r.Some? <==> key in vars
      ensures r.Some? ==> r.value == vars[key]
    {
      if key in vars then Some(vars[key]) else None
    }

    /** `pushd`. `cwdError` is the failure of reading the current directory
        and `chdirError` that of changing it, if any; the old directory is
        pushed only once the change has succeeded. */
    method Pushd(path: string, cwdError: Option<string>, chdirError: Option<string>) returns (r: Result<()>)
      modifies this`dirStack, this`cwd
      ensures cwdError.Some? ==> r == Err(cwdError.value)
      ensures cwdError.None? && chdirError.Some? ==> r == Err("pushd failed: " + chdirError.value)
      ensures r.Err? ==> dirStack == old(dirStack) && cwd == old(cwd)
      ensures r == Ok(()) <==> cwdError.None? && chdirError.None?
      ensures r.Ok? ==> dirStack == old(dirStack) + [old(cwd)] && cwd == path
    {
      if cwdError.Some? {
        return Err(cwdError.value);
      }
      var current := cwd;
      if chdirError.Some? {
        return Err("pushd failed: " + chdirError.value);
      }
      cwd := path;
      dirStack := dirStack + [current];
      return Ok(());
    }

    /** `popd`. The entry is popped before the directory change is tried, so
        a failed change still loses it. */
    method Popd(chdirError: Option<string>) returns (r: Result<string>)
      modifies this`dirStack, this`cwd
      ensures old(dirStack) == [] ==>
        r == Err("popd: directory stack empty") && dirStack == old(dirStack) && cwd == old(cwd)
      ensures old(dirStack) != [] ==> dirStack == old(dirStack)[..|old(dirStack)| - 1]
      ensures old(dirStack) != [] && chdirError.None? ==>
        r == Ok(old(dirStack)[|old(dirStack)| - 1]) && cwd == r.value
      ensures old(dirStack) != [] && chdirError.Some? ==>
        r == Err("popd failed: " + chdirError.value) && cwd == old(cwd)
    {
      if dirStack == [] {
        return Err("popd: directory stack empty");
      }
      var prev := dirStack[|dirStack| - 1];
      dirStack := dirStack[..|dirStack| - 1];
      if chdirError.Some? {
        return Err("popd failed: " + chdirError.value);
      }
      cwd := prev;
      return Ok(prev);
    }

    /** `get_stack`: the current directory, when it can be read, then the
        stack from the most recent entry to the oldest. */
    method GetStack(cwdReadable: bool) returns (stack: seq<string>)
      ensures stack == (if cwdReadable then [cwd] else []) + Reversed(dirStack)
    {
      stack := [];
      if cwdReadable {
        stack := stack + [cwd];
      }
      ghost var head := stack;
      var i := |dirStack|;
      while i > 0
        invariant 0 <= i <= |dirStack|
        invariant |stack| == |head| + |dirStack| - i
        invariant stack[..|head|] == head
        invariant forall k :: |head| <= k < |stack| ==> stack[k] == dirStack[|dirStack| - 1 - (k - |head|)]
      {
        i := i - 1;
        stack := stack + [dirStack[i]];
      }
      var rev := Reversed(dirStack);
      assert stack == head + rev by {
        assert |stack| == |head + rev|;
        forall k | 0 <= k < |stack| ensures stack[k] == (head + rev)[k] {
          if k < |head| {
            assert stack[k] == stack[..|head|][k];
          }
        }
      }
    }

    /** `add_to_path`: `path` ends up in `PATH` exactly once, first or last;
        when it holds the `:` separator joining fails and `PATH` stays. */
    method AddToPath(path: string, front: bool)
      modifies this`vars
      ensures ':' in path ==> vars == old(vars)
      ensures ':' !in path ==>
        vars == old(vars)["PATH" := Join(Placed(PathEntries(old(vars)), path, front), [':'])]
    {
      var current := if "PATH" in vars then vars["PATH"] else "";
      var paths := Split(current, ':');
      paths := Removed(paths, path);
      if front {
        paths := [path] + paths;
      } else {
        paths := paths + [path];
      }
      // `join_paths` fails only on an entry holding `:`, and the split
      // entries hold none, so only `path` can make it fail.
      if ':' !in path {
        SetVar("PATH", Join(paths, [':']));
      }
    }
  }

  /** `pushd` and then `popd`, both succeeding, come back to where they
      started and hand back the starting directory. */
  method PushdThenPopd(e: EnvManager, path: string) returns (r: Result<string>)
    modifies e
    ensures r == Ok(old(e.cwd)) && e.cwd == old(e.cwd) && e.dirStack == old(e.dirStack)
  {
    var pushed := e.Pushd(path, None, None);
    r := e.Popd(None);
    assert (old(e.dirStack) + [old(e.cwd)])[..|old(e.dirStack)|] == old(e.dirStack);
  }
}
