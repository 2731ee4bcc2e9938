/** `G`: per-coroutine context maps with a lookup that walks up the coroutine tree.
    Coroutines are an arena indexed by coroutine id; each records its parent id
    (-1 for a coroutine started outside any other) and its context map. */
module ContextStore {
  import opened Wrappers
  import opened PhpValues

  /** The exception `get` throws, with its message. */
  datatype Error = InvalidArgument(message: string)

  /** The keys `init` creates, each holding an empty array. */
  const InitialKeys: seq<string> := ["session", "get", "post", "files", "cookie", "server", "env"]

  /** Ids are handed out in increasing order, so a parent id is always smaller than its child's. */
  ghost predicate Forest(parent: seq<int>) {
    forall c :: 0 <= c < |parent| ==> -1 <= parent[c] < c
  }

  ghost predicate WellFormed(parent: seq<int>, contexts: seq<map<string, Value>>) {
    Forest(parent) && |contexts| == |parent|
  }

  /** Number of ancestors of coroutine c: the measure of the upward walk. */
  ghost function Depth(parent: seq<int>, c: nat): nat
    requires Forest(parent) && c < |parent|
    decreases c
  {
    if parent[c] == -1 then 0 else 1 + Depth(parent, parent[c])
  }

  /** The coroutines `get` visits from c: c, its parent, ..., up to a root. */
  ghost function Chain(parent: seq<int>, c: nat): (ch: seq<nat>)
    requires Forest(parent) && c < |parent|
    ensures |ch| >= 1 && ch[0] == c
    ensures forall k :: 0 <= k < |ch| ==> ch[k] <= c
    ensures forall k :: 0 < k < |ch| ==> ch[k] < c
    ensures forall k :: 0 <= k < |ch| - 1 ==> ch[k + 1] == parent[ch[k]]
    ensures parent[ch[|ch| - 1]] == -1
    decreases c
  {
    if parent[c] == -1 then [c] else [c] + Chain(parent, parent[c])
  }

  /** `isset($context[$key])`: present and not null. */
  predicate IsSet(ctx: map<string, Value>, key: string) {
    key in ctx && ctx[key] != Null
  }

  /** The value of key in the nearest context on c's chain where it is set. */
  function Find(parent: seq<int>, contexts: seq<map<string, Value>>, c: nat, key: string): Option<Value>
    requires WellFormed(parent, contexts) && c < |parent|
    decreases c
  {
    if IsSet(contexts[c], key) then Some(contexts[c][key])
    else if parent[c] == -1 then None
    else Find(parent, contexts, parent[c], key)
  }

  function NotFoundMessage(key: string): string {
    "Could not find `" + key + "` in current coroutine context."
  }

  /** The outcome of `G::get(key, default)` in coroutine c. */
  function Lookup(parent: seq<int>, contexts: seq<map<string, Value>>, c: nat, key: string, default: Value): Result<Value, Error>
    requires WellFormed(parent, contexts) && c < |parent|
  {
    match Find(parent, contexts, c, key)
    case Some(v) => Ok(v)
    case None => if default != Null then Ok(default) else Err(InvalidArgument(NotFoundMessage(key)))
  }

  /** `get` returns the value of the nearest coroutine on the chain whose context sets the key. */
  lemma {:induction false} FindNearest(parent: seq<int>, contexts: seq<map<string, Value>>, c: nat, key: string, k: nat)
    requires WellFormed(parent, contexts) && c < |parent|
    requires k < |Chain(parent, c)| && IsSet(contexts[Chain(parent, c)[k]], key)
    requires forall j :: 0 <= j < k ==> !IsSet(contexts[Chain(parent, c)[j]], key)
    ensures Find(parent, contexts, c, key) == Some(contexts[Chain(parent, c)[k]][key])
    decreases c
  {
    if k > 0 {
      var ch := Chain(parent, c);
      assert !IsSet(contexts[ch[0]], key);
      var p := parent[c];
      var chp := Chain(parent, p);
      assert ch[1..] == chp;
      FindNearest(parent, contexts, p, key, k - 1);
    }
  }

  /** `get` finds nothing exactly when no context on the chain sets the key (a null value counts as unset). */
  lemma {:induction false} FindNoneIff(parent: seq<int>, contexts: seq<map<string, Value>>, c: nat, key: string)
    requires WellFormed(parent, contexts) && c < |parent|
    ensures Find(parent, contexts, c, key).None? <==>
              forall k :: 0 <= k < |Chain(parent, c)| ==> !IsSet(contexts[Chain(parent, c)[k]], key)
    decreases c
  {
    if IsSet(contexts[c], key) {
      assert IsSet(contexts[Chain(parent, c)[0]], key);
    } else if parent[c] != -1 {
      FindNoneIff(parent, contexts, parent[c], key);
      assert Chain(parent, c) == [c] + Chain(parent, parent[c]);
      if Find(parent, contexts, c, key).None? {
        forall k | 0 < k < |Chain(parent, c)| ensures !IsSet(contexts[Chain(parent, c)[k]], key) {
          assert Chain(parent, c)[k] == Chain(parent, parent[c])[k - 1];
        }
      } else {
        var k :| 0 <= k < |Chain(parent, parent[c])| && IsSet(contexts[Chain(parent, parent[c])[k]], key);
        assert Chain(parent, c)[k + 1] == Chain(parent, parent[c])[k];
      }
    }
  }

  /** Only the chain is searched: changing contexts off the chain (siblings, descendants,
      unrelated trees) never changes what `get` returns. */
  lemma {:induction false} FindOnlyReadsChain(parent: seq<int>, contexts: seq<map<string, Value>>, contexts': seq<map<string, Value>>, c: nat, key: string)
    requires WellFormed(parent, contexts) && WellFormed(parent, contexts') && c < |parent|
    requires forall k :: 0 <= k < |Chain(parent, c)| ==> contexts'[Chain(parent, c)[k]] == contexts[Chain(parent, c)[k]]
    ensures Find(parent, contexts', c, key) == Find(parent, contexts, c, key)
    decreases c
  {
    var ch := Chain(parent, c);
    assert contexts'[ch[0]] == contexts[ch[0]];
    if parent[c] != -1 {
      var chp := Chain(parent, parent[c]);
      assert ch[1..] == chp;
      forall k | 0 <= k < |chp| ensures contexts'[chp[k]] == contexts[chp[k]] {
        assert chp[k] == ch[k + 1];
      }
      FindOnlyReadsChain(parent, contexts, contexts', parent[c], key);
    }
  }

  /** A coroutine is on its own chain; a later-created one (every descendant) and a sibling are not. */
  lemma {:induction false} ChainMembers(parent: seq<int>, c: nat, d: nat)
    requires Forest(parent) && c < |parent| && d < |parent|
    requires d > c || (d != c && parent[d] == parent[c])
    ensures forall k :: 0 <= k < |Chain(parent, c)| ==> Chain(parent, c)[k] != d
  {
    var ch := Chain(parent, c);
    if d < c {
      forall k | 0 <= k < |ch| ensures ch[k] != d {
        if k > 0 {
          assert ch[k] <= parent[c] by {
            assert ch[1..] == Chain(parent, parent[c]);
            assert ch[k] == Chain(parent, parent[c])[k - 1];
          }
        }
      }
    }
  }

  /** Writing into another coroutine's context (a sibling, a descendant) is never seen by `get` here. */
  lemma OtherWriteInvisible(parent: seq<int>, contexts: seq<map<string, Value>>, c: nat, d: nat, key: string, k: string, v: Value)
    requires WellFormed(parent, contexts) && c < |parent| && d < |parent|
    requires d > c || (d != c && parent[d] == parent[c])
    ensures Find(parent, contexts[d := contexts[d][k := v]], c, key) == Find(parent, contexts, c, key)
  {
    ChainMembers(parent, c, d);
    FindOnlyReadsChain(parent, contexts, contexts[d := contexts[d][k := v]], c, key);
  }

  /** Live view: a value a parent holds is visible to its existing child unless the child shadows it. */
  lemma ParentValueVisible(parent: seq<int>, contexts: seq<map<string, Value>>, c: nat, key: string)
    requires WellFormed(parent, contexts) && c < |parent| && parent[c] != -1
    requires !IsSet(contexts[c], key) && IsSet(contexts[parent[c]], key)
    ensures Lookup(parent, contexts, c, key, Null) == Ok(contexts[parent[c]][key])
  {
    assert Find(parent, contexts, parent[c], key) == Some(contexts[parent[c]][key]);
  }

  /** When the key is found the default plays no part; when it is not, a non-null default is
      returned and a null default raises the exception naming the key. */
  lemma DefaultOnlyWhenMissing(parent: seq<int>, contexts: seq<map<string, Value>>, c: nat, key: string, d1: Value, d2: Value)
    requires WellFormed(parent, contexts) && c < |parent|
    ensures Find(parent, contexts, c, key).Some? ==> Lookup(parent, contexts, c, key, d1) == Lookup(parent, contexts, c, key, d2)
    ensures Find(parent, contexts, c, key).None? && d1 != Null ==> Lookup(parent, contexts, c, key, d1) == Ok(d1)
    ensures Find(parent, contexts, c, key).None? ==>
              Lookup(parent, contexts, c, key, Null) == Err(InvalidArgument(NotFoundMessage(key)))
  {
  }

  /** The context after `init`: the initial keys set to empty arrays over whatever was there. */
  function Initialized(ctx: map<string, Value>): (r: map<string, Value>)
    ensures forall k :: k in InitialKeys ==> k in r && r[k] == Arr([])
    ensures forall k :: k !in InitialKeys ==> (k in r <==> k in ctx) && (k in ctx ==> r[k] == ctx[k])
  {
    ctx["session" := Arr([])]["get" := Arr([])]["post" := Arr([])]["files" := Arr([])]
       ["cookie" := Arr([])]["server" := Arr([])]["env" := Arr([])]
  }

  /** The coroutine tree as the runtime keeps it, with the coroutine now running. */
  class Coroutines {
    var parent: seq<int>
    var contexts: seq<map<string, Value>>
    var current: nat

    ghost predicate Valid()
      reads this
    {
      WellFormed(parent, contexts) && current < |contexts|
    }

    /** The runtime starts with one root coroutine, with an empty context, running. */
    constructor ()
      ensures Valid() && parent == [-1] && contexts == [map[]] && current == 0
    {
      parent := [-1];
      contexts := [map[]];
      current := 0;
    }

    /** Starting a coroutine (a root when p is -1): it gets the next id and an empty context
        and runs at once. */
    method Create(p: int) returns (id: nat)
      requires Valid() && -1 <= p < |parent|
      modifies this
      ensures Valid()
      ensures id == |old(parent)| && parent == old(parent) + [p]
      ensures contexts == old(contexts) + [map[]] && current == id
    {
      id := |parent|;
      parent := parent + [p];
      contexts := contexts + [map[]];
      current := id;
    }

    /** The scheduler resuming coroutine id. */
    method Resume(id: nat)
      requires Valid() && id < |parent|
      modifies this
      ensures Valid() && current == id && parent == old(parent) && contexts == old(contexts)
    {
      current := id;
    }

    /** `G::init`: the initial keys in the current coroutine's context, nothing else changed. */
    method Init()
      requires Valid()
      modifies this
      ensures Valid() && parent == old(parent) && current == old(current)
      ensures contexts == old(contexts)[current := Initialized(old(contexts)[current])]
      ensures forall k :: k in InitialKeys ==> Lookup(parent, contexts, current, k, Null) == Ok(Arr([]))
    {
      var ctx := contexts[current];
      ctx := ctx["session" := Arr([])];
      ctx := ctx["get" := Arr([])];
      ctx := ctx["post" := Arr([])];
      ctx := ctx["files" := Arr([])];
      ctx := ctx["cookie" := Arr([])];
      ctx := ctx["server" := Arr([])];
      ctx := ctx["env" := Arr([])];
      contexts := contexts[current := ctx];
    }

    /** `G::set`: writes only into the current coroutine's context. */
    method Set(key: string, value: Value)
      requires Valid()
      modifies this
      ensures Valid() && parent == old(parent) && current == old(current)
      ensures contexts == old(contexts)[current := old(contexts)[current][key := value]]
      ensures value != Null ==> Lookup(parent, contexts, current, key, Null) == Ok(value)
    {
      contexts := contexts[current := contexts[current][key := value]];
    }

    /** `G::get`: the do-while walk from the current coroutine up its parent chain. */
    method Get(key: string, default: Value) returns (r: Result<Value, Error>)
      requires Valid()
      ensures r == Lookup(parent, contexts, current, key, default)
    {
      var cid: int := current;
      while true
        invariant 0 <= cid < |parent|
        invariant Find(parent, contexts, current, key) == Find(parent, contexts, cid, key)
        decreases Depth(parent, cid)
      {
        if IsSet(contexts[cid], key) {
          return Ok(contexts[cid][key]);
        }
        cid := parent[cid];
        if cid == -1 {
          break;
        }
      }
      if default != Null {
        r := Ok(default);
      } else {
        r := Err(InvalidArgument(NotFoundMessage(key)));
      }
    }
  }
}
