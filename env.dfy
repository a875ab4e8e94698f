/** Environments (carlae.js `CarlaeEnv`) and parameter binding
    (`UserDefinedFunction.passArgs`).

    JavaScript environments are heap objects linked by `parent` references.
    Here they live in a store of frames indexed by an environment id; a frame
    holds its table and the id of its parent. A parent is always created
    before its child, so every parent id is smaller than its child's id. */
module Env {
  import opened Errors
  import opened Syntax
  import opened Values

  datatype Frame = Frame(table: map<string, Value>, parent: Option<nat>)

  type Store = seq<Frame>

  /** Every parent was created before its child. */
  predicate ParentsBefore(s: Store) {
    forall id :: 0 <= id < |s| && s[id].parent.Some? ==> s[id].parent.value < id
  }

  /** A value refers only to frames that exist in a store of `n` frames. */
  predicate ValueIn(v: Value, n: nat) {
    v.Closure? ==> v.env < n && v.local < n
  }

  predicate Valid(s: Store) {
    && ParentsBefore(s)
    && forall id, name :: 0 <= id < |s| && name in s[id].table ==> ValueIn(s[id].table[name], |s|)
  }

  /** `lookup`: the own table first, then each ancestor in turn; `undefined`
      when no frame of the chain binds the name. */
  function Resolve(s: Store, id: nat, name: string): Value
    requires ParentsBefore(s) && id < |s|
    decreases id
  {
    if name in s[id].table then s[id].table[name]
    else
      match s[id].parent
      case None => Undefined
      case Some(p) => Resolve(s, p, name)
  }

  /** `defineName`: insert or overwrite in the frame's own table. */
  function Define(s: Store, id: nat, name: string, v: Value): (s': Store)
    requires id < |s|
    ensures |s'| == |s| && s'[id] == Frame(s[id].table[name := v], s[id].parent)
    ensures forall i :: 0 <= i < |s| && i != id ==> s'[i] == s[i]
  {
    s[id := Frame(s[id].table[name := v], s[id].parent)]
  }

  // ---------------------------------------------------------------------------
  // The scope chain as an independent reference for `lookup`

  /** The ids of a frame and of all its ancestors, innermost first. */
  function Chain(s: Store, id: nat): (c: seq<nat>)
    requires ParentsBefore(s) && id < |s|
    ensures |c| > 0 && c[0] == id
    ensures forall k :: 0 <= k < |c| ==> c[k] < |s|
    ensures forall k :: 0 <= k < |c| - 1 ==> s[c[k]].parent == Some(c[k + 1])
    ensures s[c[|c| - 1]].parent.None?
    decreases id
  {
    match s[id].parent
    case None => [id]
    case Some(p) => [id] + Chain(s, p)
  }

  /** Position `k` of the id list `c` is the first frame that binds `name`. */
  predicate FirstBinder(s: Store, c: seq<nat>, k: nat, name: string) {
    && k < |c|
    && (forall j :: 0 <= j <= k ==> c[j] < |s|)
    && name in s[c[k]].table
    && forall j :: 0 <= j < k ==> name !in s[c[j]].table
  }

  /** Lookup returns the binding of the first frame along the chain that has
      the name, and `undefined` when none has it. */
  lemma {:induction false} ResolveIsFirstBinding(s: Store, id: nat, name: string)
    requires ParentsBefore(s) && id < |s|
    ensures (forall k :: 0 <= k < |Chain(s, id)| ==> name !in s[Chain(s, id)[k]].table) ==> Resolve(s, id, name) == Undefined
    ensures forall k: nat :: FirstBinder(s, Chain(s, id), k, name) ==> Resolve(s, id, name) == s[Chain(s, id)[k]].table[name]
    decreases id
  {
    var c := Chain(s, id);
    if name !in s[id].table && s[id].parent.Some? {
      var p := s[id].parent.value;
      ResolveIsFirstBinding(s, p, name);
      var d := Chain(s, p);
      assert c == [id] + d;
      forall k: nat | FirstBinder(s, c, k, name)
        ensures Resolve(s, id, name) == s[c[k]].table[name]
      {
        assert k > 0 && c[k] == d[k - 1];
        assert FirstBinder(s, d, k - 1, name) by {
          forall j | 0 <= j < k - 1 ensures name !in s[d[j]].table {
            assert d[j] == c[j + 1];
          }
        }
        assert Resolve(s, p, name) == s[d[k - 1]].table[name];
        assert Resolve(s, id, name) == Resolve(s, p, name);
      }
      if forall k :: 0 <= k < |c| ==> name !in s[c[k]].table {
        forall k | 0 <= k < |d| ensures name !in s[d[k]].table {
          assert d[k] == c[k + 1];
        }
      }
    }
  }

  /** Lookup depends only on the frames up to the one it starts from. */
  lemma {:induction false} ResolveReadsBelow(s: Store, t: Store, id: nat, name: string)
    requires ParentsBefore(s) && ParentsBefore(t) && id < |s| && id < |t|
    requires forall i :: 0 <= i <= id ==> s[i] == t[i]
    ensures Resolve(s, id, name) == Resolve(t, id, name)
    decreases id
  {
    if name !in s[id].table && s[id].parent.Some? {
      ResolveReadsBelow(s, t, s[id].parent.value, name);
    }
  }

  /** The innermost binding wins: a name bound in the frame itself hides every
      binding of it further up the chain. */
  lemma InnermostWins(s: Store, id: nat, name: string, v: Value)
    requires ParentsBefore(s) && id < |s| && name in s[id].table && s[id].table[name] == v
    ensures Resolve(s, id, name) == v
  {
    ResolveIsFirstBinding(s, id, name);
  }

  /** After `defineName(n, v)` lookup of `n` gives `v`, and lookup of every
      other name is unchanged. */
  lemma DefineThenResolve(s: Store, id: nat, name: string, v: Value, other: string)
    requires ParentsBefore(s) && id < |s|
    ensures ParentsBefore(Define(s, id, name, v))
    ensures Resolve(Define(s, id, name, v), id, other) == if other == name then v else Resolve(s, id, other)
  {
    var s' := Define(s, id, name, v);
    if other != name && s[id].parent.Some? && other !in s[id].table {
      ResolveReadsBelow(s, s', s[id].parent.value, other);
    }
  }

  /** `defineName` on one frame changes no lookup that starts from an older
      frame, in particular no ancestor of it. */
  lemma DefineLeavesOlderFrames(s: Store, id: nat, name: string, v: Value, j: nat, other: string)
    requires ParentsBefore(s) && id < |s| && j < id
    ensures Resolve(Define(s, id, name, v), j, other) == Resolve(s, j, other)
  {
    ResolveReadsBelow(s, Define(s, id, name, v), j, other);
  }

  lemma DefineKeepsValid(s: Store, id: nat, name: string, v: Value)
    requires Valid(s) && id < |s| && ValueIn(v, |s|)
    ensures Valid(Define(s, id, name, v))
  {
  }

  /** Lookup in a valid store yields a value that refers to existing frames. */
  lemma {:induction false} ResolveIn(s: Store, id: nat, name: string)
    requires Valid(s) && id < |s|
    ensures ValueIn(Resolve(s, id, name), |s|)
    decreases id
  {
    if name !in s[id].table && s[id].parent.Some? {
      ResolveIn(s, s[id].parent.value, name);
    }
  }

  /** Adding frames keeps a store valid when the new frames' parents and
      values point into the store. */
  lemma {:induction false} ValidAppend(s: Store, f: Frame)
    requires Valid(s)
    requires f.parent.Some? ==> f.parent.value < |s|
    requires forall name :: name in f.table ==> ValueIn(f.table[name], |s|)
    ensures Valid(s + [f])
  {
    var t := s + [f];
    forall id, name | 0 <= id < |t| && name in t[id].table
      ensures ValueIn(t[id].table[name], |t|)
    {
      if id < |s| {
        assert t[id] == s[id];
        assert ValueIn(s[id].table[name], |s|);
      } else {
        assert ValueIn(f.table[name], |s|);
      }
    }
  }

  // ---------------------------------------------------------------------------
  // Parameter binding

  /** The keys `params[i]` a call binds, in order. A parameter list binds
      its symbols; an element that is not a symbol becomes a key no lookup
      can reach (`None`). A symbol in the parameter position is a JavaScript
      string, so its characters are the keys (here Unicode characters, where
      JavaScript indexes UTF-16 code units). A number has no `length` and
      binds nothing. A missing parameter tree fails on `params.length`. */
  function ParamKeys(params: Option<Tree>): (r: Result<seq<Option<string>>>)
    ensures r.Err? <==> params.None?
    ensures params.Some? && params.value.List? ==> |r.value| == |params.value.elems|
    ensures params.Some? && params.value.List? ==>
      forall i :: 0 <= i < |r.value| ==> (r.value[i].Some? <==> params.value.elems[i].Sym?)
    ensures params.Some? && params.value.List? ==>
      forall i :: 0 <= i < |r.value| && params.value.elems[i].Sym? ==> r.value[i] == Some(params.value.elems[i].name)
    ensures params.Some? && params.value.Sym? ==>
      |r.value| == |params.value.name| &&
      forall i :: 0 <= i < |params.value.name| ==> r.value[i] == Some([params.value.name[i]])
    ensures params.Some? && params.value.Num? ==> r == Ok([])
  {
    match params
    case None => Err(Malformed)
    case Some(List(ps)) => Ok(seq(|ps|, i requires 0 <= i < |ps| => if ps[i].Sym? then Some(ps[i].name) else None))
    case Some(Sym(w)) => Ok(seq(|w|, i requires 0 <= i < |w| => Some([w[i]])))
    case Some(Num(_)) => Ok([])
  }

  /** `args[i]`: `undefined` past the end. */
  function Arg(args: seq<Value>, i: nat): Value {
    if i < |args| then args[i] else Undefined
  }

  /** The table after binding `keys[0]`, `keys[1]`, ... in that order. */
  function Bind(table: map<string, Value>, keys: seq<Option<string>>, args: seq<Value>): map<string, Value>
    decreases |keys|
  {
    if keys == [] then table
    else
      var i := |keys| - 1;
      var t := Bind(table, keys[..i], args);
      if keys[i].Some? then t[keys[i].value := Arg(args, i)] else t
  }

  /** Index `i` holds the last occurrence of key `k`. */
  predicate LastOccurrence(keys: seq<Option<string>>, i: nat, k: string) {
    i < |keys| && keys[i] == Some(k) && forall j :: i < j < |keys| ==> keys[j] != Some(k)
  }

  /** Binding is positional and the last occurrence of a repeated parameter
      wins; a name that is no parameter keeps its old binding; extra arguments
      bind nothing and missing ones bind `undefined`. */
  lemma {:induction false} BindLookup(table: map<string, Value>, keys: seq<Option<string>>, args: seq<Value>, k: string)
    ensures k in Bind(table, keys, args) <==> k in table || Some(k) in keys
    ensures forall i :: LastOccurrence(keys, i, k) ==> Bind(table, keys, args)[k] == Arg(args, i)
    ensures Some(k) !in keys && k in table ==> Bind(table, keys, args)[k] == table[k]
    decreases |keys|
  {
    if keys != [] {
      var n := |keys| - 1;
      var front := keys[..n];
      BindLookup(table, front, args, k);
      assert keys == front + [keys[n]];
      forall i: nat | LastOccurrence(keys, i, k) ensures Bind(table, keys, args)[k] == Arg(args, i) {
        if i < n {
          assert LastOccurrence(front, i, k);
        }
      }
    }
  }

  /** Binding the same parameters twice leaves only the second call's
      arguments visible: the one `localEnv` is overwritten, not extended. */
  lemma RebindOverrides(table: map<string, Value>, keys: seq<Option<string>>, a1: seq<Value>, a2: seq<Value>)
    ensures Bind(Bind(table, keys, a1), keys, a2) == Bind(table, keys, a2)
  {
    var once := Bind(table, keys, a1);
    var l := Bind(once, keys, a2);
    var r := Bind(table, keys, a2);
    forall k | true ensures (k in l <==> k in r) && (k in l ==> l[k] == r[k]) {
      BindLookup(table, keys, a1, k);
      BindLookup(once, keys, a2, k);
      BindLookup(table, keys, a2, k);
      if Some(k) in keys {
        var i := LastIndex(keys, k);
        assert l[k] == Arg(a2, i) == r[k];
      }
    }
  }

  /** The position of the last occurrence of a key that occurs. */
  function LastIndex(keys: seq<Option<string>>, k: string): (i: nat)
    requires Some(k) in keys
    ensures LastOccurrence(keys, i, k)
    decreases |keys|
  {
    if keys[|keys| - 1] == Some(k) then |keys| - 1
    else
      assert Some(k) in keys[..|keys| - 1] by {
        var j :| 0 <= j < |keys| && keys[j] == Some(k);
        assert keys[..|keys| - 1][j] == Some(k);
      }
      LastIndex(keys[..|keys| - 1], k)
  }

  /** With distinct symbol parameters, the `i`-th one is bound to the `i`-th
      argument, or to `undefined` when fewer arguments were passed. */
  lemma PositionalBinding(keys: seq<Option<string>>, args: seq<Value>, i: nat)
    requires i < |keys| && keys[i].Some?
    requires forall a, b :: 0 <= a < b < |keys| ==> keys[a] != keys[b]
    ensures keys[i].value in Bind(map[], keys, args) && Bind(map[], keys, args)[keys[i].value] == Arg(args, i)
  {
    BindLookup(map[], keys, args, keys[i].value);
    assert LastOccurrence(keys, i, keys[i].value);
  }

  lemma BindIn(table: map<string, Value>, keys: seq<Option<string>>, args: seq<Value>, n: nat)
    requires forall name :: name in table ==> ValueIn(table[name], n)
    requires forall i :: 0 <= i < |args| ==> ValueIn(args[i], n)
    ensures forall name :: name in Bind(table, keys, args) ==> ValueIn(Bind(table, keys, args)[name], n)
    decreases |keys|
  {
    if keys != [] {
      BindIn(table, keys[..|keys| - 1], args, n);
    }
  }

  // ---------------------------------------------------------------------------
  // The heap of environments

  /** All `CarlaeEnv` objects; an environment is its id in `frames`. */
  class EnvStore {
    var frames: Store

    constructor ()
      ensures frames == []
    {
      frames := [];
    }

    /** `new CarlaeEnv(parentEnv)`: an empty frame. */
    method New(parent: Option<nat>) returns (id: nat)
      requires parent.Some? ==> parent.value < |frames|
      modifies this
      ensures id == |old(frames)| && frames == old(frames) + [Frame(map[], parent)]
    {
      id := |frames|;
      frames := frames + [Frame(map[], parent)];
    }

    /** `CarlaeEnv.fromMap(map)`: a parentless frame whose table is `map`. */
    method FromMap(table: map<string, Value>) returns (id: nat)
      modifies this
      ensures id == |old(frames)| && frames == old(frames) + [Frame(table, None)]
    {
      id := New(None);
      frames := frames[id := Frame(table, None)];
    }

    /** `defineName(name, value)`. */
    method DefineName(id: nat, name: string, v: Value)
      requires id < |frames|
      modifies this
      ensures frames == Define(old(frames), id, name, v)
    {
      frames := frames[id := Frame(frames[id].table[name := v], frames[id].parent)];
    }

    /** `lookup(name)`. */
    method Lookup(id: nat, name: string) returns (v: Value)
      requires ParentsBefore(frames) && id < |frames|
      ensures v == Resolve(frames, id, name)
    {
      if name in frames[id].table {
        return frames[id].table[name];
      }
      var cur: Option<nat> := frames[id].parent;
      v := Undefined;
      while cur.Some?
        invariant cur.Some? ==> cur.value < |frames|
        invariant Resolve(frames, id, name) == if cur.Some? then Resolve(frames, cur.value, name) else Undefined
        invariant v == Undefined
        decreases if cur.Some? then cur.value + 1 else 0
      {
        var p := cur.value;
        if name in frames[p].table {
          v := frames[p].table[name];
          break;
        }
        cur := frames[p].parent;
      }
    }

    /** `new UserDefinedFunction(params, body, parentEnv)`: the function and
        the `localEnv` frame it allocates under `parentEnv`. */
    method NewFunction(params: Option<Tree>, body: Option<Tree>, parentEnv: nat) returns (fn: Value)
      requires parentEnv < |frames|
      modifies this
      ensures fn == Closure(params, body, parentEnv, |old(frames)|)
      ensures frames == old(frames) + [Frame(map[], Some(parentEnv))]
    {
      var local := New(Some(parentEnv));
      fn := Closure(params, body, parentEnv, local);
    }

    /** `defineName(keys[i], args[i])` for each key in order. */
    method BindAll(id: nat, keys: seq<Option<string>>, args: seq<Value>)
      requires id < |frames|
      modifies this
      ensures frames == old(frames)[id := Frame(Bind(old(frames)[id].table, keys, args), old(frames)[id].parent)]
    {
      for i := 0 to |keys|
        invariant |frames| == |old(frames)|
        invariant frames == old(frames)[id := Frame(Bind(old(frames)[id].table, keys[..i], args), old(frames)[id].parent)]
      {
        assert keys[..i + 1][..i] == keys[..i];
        if keys[i].Some? {
          DefineName(id, keys[i].value, Arg(args, i));
        }
      }
      assert keys[..|keys|] == keys;
    }

    /** `passArgs(args)`: bind the parameters into the function's own
        `localEnv`. */
    method PassArgs(fn: Value, args: seq<Value>) returns (r: Result<()>)
      requires fn.Closure? && fn.local < |frames|
      modifies this
      ensures r.Err? <==> fn.params.None?
      ensures r.Err? ==> frames == old(frames)
      ensures r.Ok? ==> frames == old(frames)[fn.local :=
        Frame(Bind(old(frames)[fn.local].table, ParamKeys(fn.params).value, args), old(frames)[fn.local].parent)]
    {
      var keys := ParamKeys(fn.params);
      if keys.Err? {
        return Err(keys.error);
      }
      BindAll(fn.local, keys.value, args);
      r := Ok(());
    }
  }

  /** `fromMap` gives a parentless frame in which every name of the map
      resolves to its entry and every other name is `undefined`. */
  lemma FromMapResolves(s: Store, table: map<string, Value>, name: string)
    requires ParentsBefore(s)
    ensures ParentsBefore(s + [Frame(table, None)])
    ensures Resolve(s + [Frame(table, None)], |s|, name) == if name in table then table[name] else Undefined
  {
  }
}
