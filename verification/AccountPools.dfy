/** Accounts whose trades are matched as one: those linked to each other and those that share
    a nickname, however many steps apart. The pool of an account is named by the least id in it. */
module AccountPools {
  import opened Trading

  type Id = string

  datatype Account = Account(id: Id, linked: Id, nick: string)

  // ----- the order of ids

  predicate Leq(a: Id, b: Id) {
    a == b || TextLess(a, b)
  }

  // ----- who is pooled with whom

  /** The ids that take part: each account's, and what it is linked to. */
  ghost predicate Known(recs: seq<Account>, x: Id) {
    exists i :: 0 <= i < |recs| && recs[i].id != "" && (x == recs[i].id || (x == recs[i].linked && x != ""))
  }

  ghost predicate Linked(recs: seq<Account>, u: Id, v: Id) {
    exists i :: 0 <= i < |recs| && recs[i].id == u && recs[i].linked == v && u != "" && v != ""
  }

  ghost predicate SameNick(recs: seq<Account>, u: Id, v: Id) {
    exists i, j :: 0 <= i < |recs| && 0 <= j < |recs| && recs[i].id == u && recs[j].id == v
                   && u != "" && v != "" && recs[i].nick != "" && recs[i].nick == recs[j].nick
  }

  ghost predicate Adjacent(recs: seq<Account>, u: Id, v: Id) {
    Linked(recs, u, v) || Linked(recs, v, u) || SameNick(recs, u, v)
  }

  ghost predicate Path(recs: seq<Account>, p: seq<Id>) {
    p != [] && forall i :: 0 <= i < |p| - 1 ==> Adjacent(recs, p[i], p[i + 1])
  }

  /** One pool: there is a chain of links and shared nicknames from one to the other. */
  ghost predicate Together(recs: seq<Account>, x: Id, y: Id) {
    exists p :: Path(recs, p) && p[0] == x && p[|p| - 1] == y
  }

  lemma TogetherItself(recs: seq<Account>, x: Id)
    ensures Together(recs, x, x)
  {
    assert Path(recs, [x]) && [x][0] == x && [x][|[x]| - 1] == x;
  }

  lemma TogetherAdjacent(recs: seq<Account>, x: Id, y: Id)
    requires Adjacent(recs, x, y)
    ensures Together(recs, x, y)
  {
    var p := [x, y];
    assert Path(recs, p) && p[0] == x && p[|p| - 1] == y;
  }

  lemma SameNickTurns(recs: seq<Account>, x: Id, y: Id)
    requires SameNick(recs, x, y)
    ensures SameNick(recs, y, x)
  {
    var i, j :| 0 <= i < |recs| && 0 <= j < |recs| && recs[i].id == x && recs[j].id == y
                && x != "" && y != "" && recs[i].nick != "" && recs[i].nick == recs[j].nick;
    assert recs[j].id == y && recs[i].id == x;
  }

  lemma AdjacentTurns(recs: seq<Account>, x: Id, y: Id)
    requires Adjacent(recs, x, y)
    ensures Adjacent(recs, y, x)
  {
    hide Linked, SameNick;
    if SameNick(recs, x, y) {
      SameNickTurns(recs, x, y);
    }
  }

  lemma TogetherThen(recs: seq<Account>, x: Id, y: Id, z: Id)
    requires Together(recs, x, y) && Together(recs, y, z)
    ensures Together(recs, x, z)
  {
    hide Adjacent;
    var p :| Path(recs, p) && p[0] == x && p[|p| - 1] == y;
    var q :| Path(recs, q) && q[0] == y && q[|q| - 1] == z;
    var r := p + q[1..];
    forall i | 0 <= i < |r| - 1 ensures Adjacent(recs, r[i], r[i + 1]) {
      if i < |p| - 1 {
        assert r[i] == p[i] && r[i + 1] == p[i + 1];
      } else {
        assert r[i] == q[i - (|p| - 1)] && r[i + 1] == q[i + 1 - (|p| - 1)];
      }
    }
    assert Path(recs, r) && r[0] == x && r[|r| - 1] == z;
  }

  lemma {:induction false} TogetherTurns(recs: seq<Account>, x: Id, y: Id)
    requires Together(recs, x, y)
    ensures Together(recs, y, x)
  {
    hide Adjacent;
    var p :| Path(recs, p) && p[0] == x && p[|p| - 1] == y;
    var n := |p| - 1;
    var r := seq(|p|, i requires 0 <= i <= n => p[n - i]);
    forall i | 0 <= i < |r| - 1 ensures Adjacent(recs, r[i], r[i + 1]) {
      AdjacentTurns(recs, p[n - i - 1], p[n - i]);
    }
    assert Path(recs, r) && r[0] == y && r[|r| - 1] == x;
  }

  // ----- the forest

  type Parents = map<Id, Id>

  /** Every parent is known, and never after its child. */
  predicate Forest(p: Parents) {
    forall x {:trigger p[x]} :: x in p ==> p[x] in p && Leq(p[x], x)
  }

  ghost function Below(p: Parents, x: Id): set<Id> {
    set k | k in p && TextLess(k, x)
  }

  lemma ParentIsBelow(p: Parents, x: Id)
    requires Forest(p) && x in p && p[x] != x
    ensures |Below(p, p[x])| < |Below(p, x)|
  {
    forall k | k in Below(p, p[x]) ensures k in Below(p, x) {
      LessIsOrder(k, p[x], x);
    }
    LessIsOrder(p[x], x, x);
    assert p[x] in Below(p, x) && p[x] !in Below(p, p[x]);
    SmallerSet(Below(p, p[x]), Below(p, x), p[x]);
  }

  lemma SmallerSet(a: set<Id>, b: set<Id>, x: Id)
    requires a <= b && x in b && x !in a
    ensures |a| < |b|
  {
    assert b == a + (b - a);
    assert x in b - a;
  }

  /** The root a find reaches. */
  ghost function Root(p: Parents, x: Id): (r: Id)
    requires Forest(p) && x in p
    ensures r in p && p[r] == r
    decreases |Below(p, x)|
  {
    if p[x] == x then x
    else
      ParentIsBelow(p, x);
      Root(p, p[x])
  }

  lemma {:induction false} RootLeads(p: Parents, x: Id)
    requires Forest(p) && x in p
    ensures Leq(Root(p, x), x)
    decreases |Below(p, x)|
  {
    if p[x] != x {
      ParentIsBelow(p, x);
      RootLeads(p, p[x]);
      LessIsOrder(Root(p, x), p[x], x);
    }
  }

  /** Halving a path keeps the forest and every root. */
  lemma HalvedIsForest(p: Parents, x: Id)
    requires Forest(p) && x in p
    ensures Forest(p[x := p[p[x]]])
  {
    LessIsOrder(p[p[x]], p[x], x);
  }

  lemma {:induction false} HalvedKeepsRoot(p: Parents, x: Id, y: Id)
    requires Forest(p) && x in p && y in p
    ensures Forest(p[x := p[p[x]]]) && Root(p[x := p[p[x]]], y) == Root(p, y)
    decreases |Below(p, y)|
  {
    HalvedIsForest(p, x);
    var q := p[x := p[p[x]]];
    if p[y] != y {
      ParentIsBelow(p, y);
      HalvedKeepsRoot(p, x, p[y]);
      if y == x && p[p[y]] != p[y] {
        ParentIsBelow(p, p[y]);
        HalvedKeepsRoot(p, x, p[p[y]]);
        NeverBack(p, x);
      }
    }
  }

  /** Two steps up from a node that is no root do not lead back to it. */
  lemma NeverBack(p: Parents, x: Id)
    requires Forest(p) && x in p && p[x] != x
    ensures p[p[x]] != x
  {
    LessIsOrder(p[p[x]], p[x], x);
  }

  /** Hanging one root under another joins their trees. */
  lemma HungIsForest(p: Parents, a: Id, b: Id)
    requires Forest(p) && a in p && b in p && TextLess(b, a)
    ensures Forest(p[a := b])
  {
  }

  lemma {:induction false} HungRoot(p: Parents, a: Id, b: Id, y: Id)
    requires Forest(p) && a in p && b in p && y in p && p[a] == a && p[b] == b && TextLess(b, a)
    ensures Forest(p[a := b]) && Root(p[a := b], y) == if Root(p, y) == a then b else Root(p, y)
    decreases |Below(p, y)|
  {
    HungIsForest(p, a, b);
    LessIsOrder(a, b, a);
    var q := p[a := b];
    assert q[b] == b;
    if p[y] == y {
      if y == a {
        assert Root(q, y) == Root(q, b) == b;
      }
    } else {
      ParentIsBelow(p, y);
      HungRoot(p, a, b, p[y]);
    }
  }

  /** A new id is its own tree. */
  lemma AddedIsForest(p: Parents, x: Id)
    requires Forest(p) && x !in p
    ensures Forest(p[x := x])
  {
  }

  lemma {:induction false} AddedKeepsRoot(p: Parents, x: Id, y: Id)
    requires Forest(p) && x !in p && y in p
    ensures Forest(p[x := x]) && Root(p[x := x], y) == Root(p, y)
    decreases |Below(p, y)|
  {
    AddedIsForest(p, x);
    if p[y] != y {
      ParentIsBelow(p, y);
      AddedKeepsRoot(p, x, p[y]);
    }
  }

  // ----- what the forest says of the pools

  /** Every parent is in the child's pool. */
  ghost predicate Within(recs: seq<Account>, p: Parents) {
    forall x {:trigger p[x]} :: x in p ==> p[x] in p && Together(recs, x, p[x])
  }

  lemma {:induction false} RootTogether(recs: seq<Account>, p: Parents, x: Id)
    requires Forest(p) && Within(recs, p) && x in p
    ensures Together(recs, x, Root(p, x))
    decreases |Below(p, x)|
  {
    hide Together;
    if p[x] == x {
      TogetherItself(recs, x);
    } else {
      ParentIsBelow(p, x);
      RootTogether(recs, p, p[x]);
      TogetherThen(recs, x, p[x], Root(p, x));
    }
  }

  /** Adjacent ids have one root. */
  ghost predicate Joined(recs: seq<Account>, p: Parents)
    requires Forest(p)
  {
    forall u, v :: Adjacent(recs, u, v) ==> u in p && v in p && Root(p, u) == Root(p, v)
  }

  lemma {:induction false} PathHasOneRoot(recs: seq<Account>, p: Parents, path: seq<Id>)
    requires Forest(p) && Joined(recs, p) && Path(recs, path) && path[0] in p
    ensures path[|path| - 1] in p && Root(p, path[|path| - 1]) == Root(p, path[0])
    decreases |path|
  {
    hide Adjacent, Root;
    if |path| > 1 {
      assert Adjacent(recs, path[0], path[1]);
      var rest := path[1..];
      forall i | 0 <= i < |rest| - 1 ensures Adjacent(recs, rest[i], rest[i + 1]) {
        assert rest[i] == path[i + 1] && rest[i + 1] == path[i + 2];
      }
      PathHasOneRoot(recs, p, rest);
    }
  }

  /** The name of the pool: its least id. */
  ghost predicate LeastOf(recs: seq<Account>, x: Id, r: Id) {
    Together(recs, x, r) && forall y :: Together(recs, x, y) ==> Leq(r, y)
  }

  lemma TogetherHasOneRoot(recs: seq<Account>, p: Parents, x: Id, y: Id)
    requires Forest(p) && Joined(recs, p) && Together(recs, x, y) && x in p
    ensures y in p && Root(p, y) == Root(p, x)
  {
    hide Adjacent, Root, Joined, Forest;
    var path :| Path(recs, path) && path[0] == x && path[|path| - 1] == y;
    PathHasOneRoot(recs, p, path);
  }

  /** Where every adjacency is joined, a root is the least id of its pool. */
  lemma RootIsLeast(recs: seq<Account>, p: Parents, x: Id)
    requires Forest(p) && Within(recs, p) && Joined(recs, p) && x in p
    ensures LeastOf(recs, x, Root(p, x))
  {
    hide Together, Root, Leq, Joined, Forest;
    RootTogether(recs, p, x);
    forall y | Together(recs, x, y) ensures Leq(Root(p, x), y) {
      TogetherHasOneRoot(recs, p, x, y);
      RootLeads(p, y);
    }
  }

  // ----- what one change of the forest keeps

  /** From `p` to `q` no id changes pool: every root stays. */
  ghost predicate Kept(p: Parents, q: Parents) {
    && Forest(p) && Forest(q) && p.Keys <= q.Keys
    && forall y {:trigger Root(q, y)} :: y in p ==> y in q && Root(q, y) == Root(p, y)
  }

  lemma KeptThen(p: Parents, q: Parents, r: Parents)
    requires Kept(p, q) && Kept(q, r)
    ensures Kept(p, r)
  {
    hide Root, Forest;
  }

  lemma AddedKept(recs: seq<Account>, p: Parents, x: Id)
    requires Forest(p) && Within(recs, p) && x !in p
    ensures var q := p[x := x];
            Kept(p, q) && Within(recs, q) && q.Keys == p.Keys + {x} && Root(q, x) == x
  {
    hide Together, Root;
    AddedIsForest(p, x);
    var q := p[x := x];
    forall y {:trigger Root(q, y)} | y in p ensures Root(q, y) == Root(p, y) {
      AddedKeepsRoot(p, x, y);
    }
    TogetherItself(recs, x);
    AtRoot(q, x);
  }

  lemma HalvedKept(recs: seq<Account>, p: Parents, r: Id)
    requires Forest(p) && Within(recs, p) && r in p && p[r] != r
    ensures p[r] in p && p[p[r]] in p
    ensures var q := p[r := p[p[r]]];
            && Kept(p, q) && Forest(q) && Within(recs, q) && q.Keys == p.Keys
            && q[r] in q && Root(q, q[r]) == Root(p, r) && |Below(q, q[r])| < |Below(p, r)|
  {
    hide Together, Root, Below;
    HalvedIsForest(p, r);
    GrandparentBelow(p, r);
    RootOfGrandparent(p, r);
    var q := p[r := p[p[r]]];
    forall y {:trigger Root(q, y)} | y in p ensures Root(q, y) == Root(p, y) {
      HalvedKeepsRoot(p, r, y);
    }
    TogetherThen(recs, r, p[r], p[p[r]]);
    SameBelow(p, q);
  }

  /** Hanging the greater root under the lesser joins two pools that belong together. */
  lemma HungKept(recs: seq<Account>, p: Parents, a: Id, b: Id)
    requires Forest(p) && Within(recs, p) && a in p && b in p && p[a] == a && p[b] == b && TextLess(b, a)
    requires Together(recs, a, b)
    ensures var q := p[a := b];
            && Forest(q) && Within(recs, q) && q.Keys == p.Keys
            && forall y {:trigger Root(q, y)} :: y in p ==> Root(q, y) == if Root(p, y) == a then b else Root(p, y)
  {
    hide Together, Root;
    HungIsForest(p, a, b);
    var q := p[a := b];
    forall y {:trigger Root(q, y)} | y in p ensures Root(q, y) == if Root(p, y) == a then b else Root(p, y) {
      HungRoot(p, a, b, y);
    }
  }

  lemma SameBelow(p: Parents, q: Parents)
    requires p.Keys == q.Keys
    ensures forall x :: Below(p, x) == Below(q, x)
  {
    forall x ensures Below(p, x) == Below(q, x) {
      assert forall k :: k in p <==> k in q.Keys;
    }
  }

  /** The ids a union joins are one pool, and nothing once joined is parted. */
  ghost predicate Merged(p: Parents, q: Parents) {
    && Forest(p) && Forest(q) && p.Keys <= q.Keys
    && forall x, y {:trigger Root(q, x), Root(q, y)} :: x in p && y in p && Root(p, x) == Root(p, y) ==>
          Root(q, x) == Root(q, y)
  }

  lemma MergedThen(p: Parents, q: Parents, r: Parents)
    requires Merged(p, q) && Merged(q, r)
    ensures Merged(p, r)
  {
    hide Root, Forest;
  }

  lemma KeptIsMerged(p: Parents, q: Parents)
    requires Kept(p, q)
    ensures Merged(p, q)
  {
    hide Root, Forest;
  }

  lemma HungIsMerged(recs: seq<Account>, p: Parents, a: Id, b: Id)
    requires Forest(p) && Within(recs, p) && a in p && b in p && p[a] == a && p[b] == b && TextLess(b, a)
    requires Together(recs, a, b)
    ensures Merged(p, p[a := b])
  {
    hide Root, Forest, Within;
    HungKept(recs, p, a, b);
  }

  /** Part way up from `x`, the root not yet reached. */
  ghost predicate Climbing(recs: seq<Account>, p0: Parents, x: Id, p: Parents, r: Id)
    requires Forest(p) && Forest(p0) && x in p0 && r in p
  {
    Within(recs, p) && p.Keys == p0.Keys && Kept(p0, p) && Root(p, r) == Root(p0, x)
  }

  function Grandparent(p: Parents, r: Id): (g: Id)
    requires Forest(p) && r in p
    ensures g in p
  {
    p[p[r]]
  }

  lemma HalvedClimbs(recs: seq<Account>, p0: Parents, x: Id, p: Parents, r: Id)
    requires Forest(p) && Forest(p0) && x in p0 && r in p && p[r] != r
    requires Climbing(recs, p0, x, p, r)
    ensures var g := Grandparent(p, r);
            var q := p[r := g];
            Forest(q) && g in q && Climbing(recs, p0, x, q, g) && |Below(q, g)| < |Below(p, r)|
  {
    hide Kept, Root, Forest, Within, Below;
    HalvedKept(recs, p, r);
    KeptThen(p0, p, p[r := Grandparent(p, r)]);
  }

  // ----- the union-find, in place

  class Pools {
    var parent: Parents
    const recs: seq<Account>

    ghost predicate Valid()
      reads this
    {
      Forest(parent) && Within(recs, parent)
    }

    constructor (recs: seq<Account>)
      ensures Valid() && parent == map[] && this.recs == recs
    {
      parent := map[];
      this.recs := recs;
    }

    /** The root of `x`, added the first time it is asked for; every node passed is hung on its
        grandparent. */
    method Find(x: Id) returns (r: Id)
      requires Valid()
      modifies this
      ensures Valid() && parent.Keys == old(parent).Keys + {x} && Kept(old(parent), parent)
      ensures r in parent && parent[r] == r && r == Root(parent, x) && (x !in old(parent) ==> r == x)
    {
      hide Kept, Root, Forest, Within;
      KeptItself(parent);
      if x !in parent {
        AddedKept(recs, parent, x);
        parent := parent[x := x];
      }
      ghost var p0 := parent;
      KeptIsForest(old(parent), p0);
      KeptItself(p0);
      r := x;
      while parent[r] != r
        invariant Forest(parent) && r in parent && Climbing(recs, p0, x, parent, r)
        decreases |Below(parent, r)|
      {
        HalvedClimbs(recs, p0, x, parent, r);
        parent := parent[r := Grandparent(parent, r)];
        r := parent[r];
      }
      AtRoot(parent, r);
      KeptThen(old(parent), p0, parent);
      KeptRoot(p0, parent, x);
    }

    /** Join the pools of two ids. */
    method Union(a: Id, b: Id)
      requires Valid() && (a != "" && b != "" ==> Together(recs, a, b))
      modifies this
      ensures Valid() && Merged(old(parent), parent)
      ensures parent.Keys == old(parent).Keys + if a == "" || b == "" then {} else {a, b}
      ensures a != "" && b != "" ==> Root(parent, a) == Root(parent, b)
    {
      hide Kept, Merged, Root, Forest, Within, Together;
      KeptItself(parent);
      KeptIsMerged(parent, parent);
      if a == "" || b == "" {
        return;
      }
      ghost var p0 := parent;
      var ra := Find(a);
      ghost var p1 := parent;
      var rb := Find(b);
      KeptThen(p0, p1, parent);
      KeptIsMerged(p0, parent);
      KeptRoot(p1, parent, a);
      KeptRoot(p1, parent, ra);
      AtRoot(p1, ra);
      ghost var p2 := parent;
      RootIsOwn(p2, a);
      if ra != rb {
        RootsTogether(recs, p2, a, b);
        var hi, lo := if TextLess(ra, rb) then rb else ra, if TextLess(ra, rb) then ra else rb;
        LessIsOrder(ra, rb, ra);
        TogetherTurns(recs, ra, rb);
        HungKept(recs, p2, hi, lo);
        HungIsMerged(recs, p2, hi, lo);
        parent := parent[hi := lo];
        MergedThen(p0, p2, parent);
      }
    }
  }

  lemma KeptItself(p: Parents)
    requires Forest(p)
    ensures Kept(p, p)
  {
    hide Root, Forest;
  }

  lemma KeptIsForest(p: Parents, q: Parents)
    requires Kept(p, q)
    ensures Forest(q)
  {
  }

  lemma KeptRoot(p: Parents, q: Parents, x: Id)
    requires Kept(p, q) && x in p
    ensures x in q && Root(q, x) == Root(p, x)
  {
    hide Root, Forest;
  }

  lemma RootIsOwn(p: Parents, x: Id)
    requires Forest(p) && x in p
    ensures var r := Root(p, x);
            r in p && p[r] == r && Root(p, r) == r
  {
  }

  lemma RootsTogether(recs: seq<Account>, p: Parents, a: Id, b: Id)
    requires Forest(p) && Within(recs, p) && a in p && b in p && Together(recs, a, b)
    ensures Together(recs, Root(p, a), Root(p, b))
  {
    hide Together, Root;
    RootTogether(recs, p, a);
    RootTogether(recs, p, b);
    TogetherTurns(recs, a, Root(p, a));
    TogetherThen(recs, Root(p, a), a, b);
    TogetherThen(recs, Root(p, a), b, Root(p, b));
  }

  lemma AtRoot(p: Parents, r: Id)
    requires Forest(p) && r in p && p[r] == r
    ensures Root(p, r) == r
  {
  }

  lemma RootOfGrandparent(p: Parents, r: Id)
    requires Forest(p) && r in p
    ensures p[r] in p && p[p[r]] in p && Root(p, p[p[r]]) == Root(p, r)
  {
  }

  /** Parents never exceed children, so a find climbs down the order of ids. */
  lemma GrandparentBelow(p: Parents, r: Id)
    requires Forest(p) && r in p && p[r] != r
    ensures p[r] in p && p[p[r]] in p && |Below(p, p[p[r]])| < |Below(p, r)|
  {
    ParentIsBelow(p, r);
    if p[p[r]] != p[r] {
      ParentIsBelow(p, p[r]);
    }
  }

  // ----- every account

  /** An id among the first `n` accounts, or linked to by one. */
  ghost predicate KnownBy(recs: seq<Account>, n: nat, x: Id)
    requires n <= |recs|
  {
    exists i :: 0 <= i < n && recs[i].id != "" && (x == recs[i].id || (x == recs[i].linked && x != ""))
  }

  ghost predicate Filled(recs: seq<Account>, n: nat, p: Parents)
    requires n <= |recs|
  {
    forall x :: x in p <==> KnownBy(recs, n, x)
  }

  /** The first `n` links are joined. */
  ghost predicate LinksDone(recs: seq<Account>, n: nat, p: Parents)
    requires n <= |recs| && Forest(p)
  {
    forall i :: 0 <= i < n && recs[i].id != "" && recs[i].linked != "" ==> OneRoot(p, recs[i].id, recs[i].linked)
  }

  ghost predicate OneRoot(p: Parents, x: Id, y: Id)
    requires Forest(p)
  {
    x in p && y in p && Root(p, x) == Root(p, y)
  }

  type Nicks = map<string, seq<Id>>

  /** Each nickname lists the accounts that bear it, of the first `n`. */
  ghost predicate Listed(recs: seq<Account>, n: nat, byNick: Nicks)
    requires n <= |recs|
  {
    && (forall i :: 0 <= i < n && recs[i].id != "" && recs[i].nick != "" ==>
          recs[i].nick in byNick && recs[i].id in byNick[recs[i].nick])
    && (forall k :: k in byNick ==>
          byNick[k] != [] && forall t :: 0 <= t < |byNick[k]| ==> Bears(recs, byNick[k][t], k))
  }

  ghost predicate Bears(recs: seq<Account>, x: Id, nick: string) {
    exists i :: 0 <= i < |recs| && recs[i].id == x && x != "" && recs[i].nick == nick && nick != ""
  }

  lemma BearersTogether(recs: seq<Account>, x: Id, y: Id, nick: string)
    requires Bears(recs, x, nick) && Bears(recs, y, nick)
    ensures Together(recs, x, y)
  {
    assert SameNick(recs, x, y);
    TogetherAdjacent(recs, x, y);
  }

  lemma MergedOneRoot(p: Parents, q: Parents, x: Id, y: Id)
    requires Merged(p, q) && OneRoot(p, x, y)
    ensures OneRoot(q, x, y)
  {
    assert Root(q, x) == Root(q, y);
  }

  lemma LinksStay(recs: seq<Account>, n: nat, p: Parents, q: Parents)
    requires n <= |recs| && Merged(p, q) && LinksDone(recs, n, p)
    ensures LinksDone(recs, n, q)
  {
    hide Merged, OneRoot;
    MergedIsForest(p, q);
    forall i | 0 <= i < n && recs[i].id != "" && recs[i].linked != "" ensures OneRoot(q, recs[i].id, recs[i].linked) {
      MergedOneRoot(p, q, recs[i].id, recs[i].linked);
    }
  }

  lemma MergedIsForest(p: Parents, q: Parents)
    requires Merged(p, q)
    ensures Forest(p) && Forest(q) && p.Keys <= q.Keys
  {
  }

  lemma FilledNext(recs: seq<Account>, n: nat, p: Parents, q: Parents)
    requires n < |recs| && Filled(recs, n, p)
    requires q.Keys == p.Keys
                        + (if recs[n].id == "" then {} else if recs[n].linked == "" then {recs[n].id}
                           else {recs[n].id, recs[n].linked})
    ensures Filled(recs, n + 1, q)
  {
    forall x ensures x in q <==> KnownBy(recs, n + 1, x) {
      assert x in q <==> x in q.Keys;
      assert x in p <==> x in p.Keys;
      if KnownBy(recs, n, x) {
        var i :| 0 <= i < n && recs[i].id != "" && (x == recs[i].id || (x == recs[i].linked && x != ""));
        assert i < n + 1;
      }
      if KnownBy(recs, n + 1, x) && !KnownBy(recs, n, x) {
        assert recs[n].id != "" && (x == recs[n].id || (x == recs[n].linked && x != ""));
      }
    }
  }

  lemma ListedNext(recs: seq<Account>, n: nat, byNick: Nicks, next: Nicks)
    requires n < |recs| && Listed(recs, n, byNick)
    requires var a := recs[n];
             next == if a.id == "" || a.nick == "" then byNick
                     else byNick[a.nick := (if a.nick in byNick then byNick[a.nick] else []) + [a.id]]
    ensures Listed(recs, n + 1, next)
  {
    var a := recs[n];
    if a.id != "" && a.nick != "" {
      var before := if a.nick in byNick then byNick[a.nick] else [];
      assert next[a.nick] == before + [a.id] && a.id in next[a.nick];
      assert Bears(recs, a.id, a.nick);
      forall i | 0 <= i < n + 1 && recs[i].id != "" && recs[i].nick != ""
        ensures recs[i].nick in next && recs[i].id in next[recs[i].nick]
      {
        if i < n && recs[i].nick == a.nick {
          assert recs[i].id in before;
        }
      }
    }
  }

  /** One account: its id is met, and its link joined. */
  method Meet(pools: Pools, n: nat)
    requires n < |pools.recs| && pools.Valid()
    modifies pools
    ensures pools.Valid() && Merged(old(pools.parent), pools.parent)
    ensures var a := pools.recs[n];
            && pools.parent.Keys == old(pools.parent).Keys
                                   + (if a.id == "" then {} else if a.linked == "" then {a.id} else {a.id, a.linked})
            && (a.id != "" && a.linked != "" ==> OneRoot(pools.parent, a.id, a.linked))
  {
    hide Merged, Kept, Root, Within, OneRoot, Together, Forest;
    var a := pools.recs[n];
    ghost var p := pools.parent;
    KeptItself(p);
    KeptIsMerged(p, p);
    if a.id != "" {
      var _ := pools.Find(a.id);
      ghost var p1 := pools.parent;
      KeptIsMerged(p, p1);
      if a.linked != "" {
        LinkTogether(pools.recs, n);
        pools.Union(a.id, a.linked);
        MergedThen(p, p1, pools.parent);
        assert a.id in pools.parent.Keys && a.linked in pools.parent.Keys;
        JoinedByUnion(pools.parent, a.id, a.linked);
      }
    }
  }

  method Gather(pools: Pools) returns (byNick: Nicks)
    requires pools.Valid() && pools.parent == map[]
    modifies pools
    ensures pools.Valid() && Filled(pools.recs, |pools.recs|, pools.parent)
    ensures LinksDone(pools.recs, |pools.recs|, pools.parent)
    ensures Listed(pools.recs, |pools.recs|, byNick)
  {
    hide Merged, Kept, Root, Within, Filled, LinksDone, OneRoot, Listed, Together, Forest;
    byNick := map[];
    NothingDone(pools.recs);
    for n := 0 to |pools.recs|
      invariant pools.Valid() && Filled(pools.recs, n, pools.parent) && LinksDone(pools.recs, n, pools.parent)
      invariant Listed(pools.recs, n, byNick)
    {
      var a := pools.recs[n];
      ghost var p, was := pools.parent, byNick;
      Meet(pools, n);
      if a.id != "" && a.nick != "" {
        byNick := byNick[a.nick := (if a.nick in byNick then byNick[a.nick] else []) + [a.id]];
      }
      FilledNext(pools.recs, n, p, pools.parent);
      LinksStay(pools.recs, n, p, pools.parent);
      LinksNext(pools.recs, n, pools.parent);
      ListedNext(pools.recs, n, was, byNick);
    }
  }

  lemma NothingDone(recs: seq<Account>)
    ensures Filled(recs, 0, map[]) && LinksDone(recs, 0, map[]) && Listed(recs, 0, map[])
  {
  }

  lemma LinkTogether(recs: seq<Account>, n: nat)
    requires n < |recs| && recs[n].id != "" && recs[n].linked != ""
    ensures Together(recs, recs[n].id, recs[n].linked)
  {
    assert Linked(recs, recs[n].id, recs[n].linked);
    TogetherAdjacent(recs, recs[n].id, recs[n].linked);
  }

  lemma JoinedByUnion(p: Parents, x: Id, y: Id)
    requires Forest(p) && x in p && y in p && Root(p, x) == Root(p, y)
    ensures OneRoot(p, x, y)
  {
  }

  lemma LinksNext(recs: seq<Account>, n: nat, p: Parents)
    requires n < |recs| && Forest(p) && LinksDone(recs, n, p)
    requires recs[n].id != "" && recs[n].linked != "" ==> OneRoot(p, recs[n].id, recs[n].linked)
    ensures LinksDone(recs, n + 1, p)
  {
  }

  /** The accounts of one nickname are joined to the first of them, as far as `n`. */
  ghost predicate GroupDone(ids: seq<Id>, n: nat, p: Parents)
    requires Forest(p) && n <= |ids|
  {
    forall t :: 0 <= t < n ==> OneRoot(p, ids[t], ids[0])
  }

  lemma GroupStays(ids: seq<Id>, n: nat, p: Parents, q: Parents)
    requires n <= |ids| && Merged(p, q) && GroupDone(ids, n, p)
    ensures GroupDone(ids, n, q)
  {
    hide Merged, OneRoot;
    MergedIsForest(p, q);
    forall t | 0 <= t < n ensures OneRoot(q, ids[t], ids[0]) {
      MergedOneRoot(p, q, ids[t], ids[0]);
    }
  }

  method JoinGroup(pools: Pools, ids: seq<Id>, ghost nick: string)
    requires pools.Valid() && ids != [] && forall t :: 0 <= t < |ids| ==>
               Bears(pools.recs, ids[t], nick) && ids[t] in pools.parent
    modifies pools
    ensures pools.Valid() && Merged(old(pools.parent), pools.parent) && pools.parent.Keys == old(pools.parent).Keys
    ensures GroupDone(ids, |ids|, pools.parent)
  {
    hide Merged, Kept, Root, Within, OneRoot, Together, Bears, Forest;
    ghost var p0 := pools.parent;
    KeptItself(p0);
    KeptIsMerged(p0, p0);
    JoinedByUnion(p0, ids[0], ids[0]);
    for n := 1 to |ids|
      invariant pools.Valid() && Merged(p0, pools.parent) && pools.parent.Keys == p0.Keys
      invariant GroupDone(ids, n, pools.parent)
    {
      ghost var p := pools.parent;
      BearersTogether(pools.recs, ids[0], ids[n], nick);
      BearsNonempty(pools.recs, ids[0], nick);
      BearsNonempty(pools.recs, ids[n], nick);
      assert ids[0] in p0.Keys && ids[n] in p0.Keys;
      pools.Union(ids[0], ids[n]);
      MergedThen(p0, p, pools.parent);
      GroupStays(ids, n, p, pools.parent);
      JoinedByUnion(pools.parent, ids[n], ids[0]);
    }
  }

  lemma BearsNonempty(recs: seq<Account>, x: Id, nick: string)
    requires Bears(recs, x, nick)
    ensures x != ""
  {
  }

  /** Every group named in `done` is joined. */
  ghost predicate GroupsDone(byNick: Nicks, done: set<string>, p: Parents)
    requires Forest(p)
  {
    forall k :: k in done && k in byNick ==> GroupDone(byNick[k], |byNick[k]|, p)
  }

  lemma GroupsStay(byNick: Nicks, done: set<string>, p: Parents, q: Parents)
    requires Merged(p, q) && GroupsDone(byNick, done, p)
    ensures GroupsDone(byNick, done, q)
  {
    hide Merged, GroupDone;
    MergedIsForest(p, q);
    forall k | k in done && k in byNick ensures GroupDone(byNick[k], |byNick[k]|, q) {
      GroupStays(byNick[k], |byNick[k]|, p, q);
    }
  }

  lemma ListedAreKnown(recs: seq<Account>, byNick: Nicks, p: Parents, k: string)
    requires Listed(recs, |recs|, byNick) && Filled(recs, |recs|, p) && k in byNick
    ensures byNick[k] != [] && forall t :: 0 <= t < |byNick[k]| ==> Bears(recs, byNick[k][t], k) && byNick[k][t] in p
  {
    forall t | 0 <= t < |byNick[k]| ensures byNick[k][t] in p {
      assert Bears(recs, byNick[k][t], k);
      assert KnownBy(recs, |recs|, byNick[k][t]);
    }
  }

  method JoinGroups(pools: Pools, byNick: Nicks)
    requires pools.Valid() && Listed(pools.recs, |pools.recs|, byNick) && Filled(pools.recs, |pools.recs|, pools.parent)
    modifies pools
    ensures pools.Valid() && Merged(old(pools.parent), pools.parent) && pools.parent.Keys == old(pools.parent).Keys
    ensures GroupsDone(byNick, byNick.Keys, pools.parent)
  {
    hide Merged, Kept, Root, Within, OneRoot, Together, Bears, Forest, Listed, KnownBy, GroupDone;
    ghost var p0 := pools.parent;
    KeptItself(p0);
    KeptIsMerged(p0, p0);
    var todo := byNick.Keys;
    while todo != {}
      invariant pools.Valid() && Merged(p0, pools.parent) && pools.parent.Keys == p0.Keys
      invariant todo <= byNick.Keys && GroupsDone(byNick, byNick.Keys - todo, pools.parent)
      decreases |todo|
    {
      var k :| k in todo;
      ghost var p := pools.parent;
      ListedAreKnown(pools.recs, byNick, p0, k);
      assert forall t :: 0 <= t < |byNick[k]| ==> byNick[k][t] in p0.Keys;
      JoinGroup(pools, byNick[k], k);
      MergedThen(p0, p, pools.parent);
      GroupsStay(byNick, byNick.Keys - todo, p, pools.parent);
      todo := todo - {k};
    }
  }

  /** With links and groups joined, so is every adjacency. */
  lemma AllJoined(recs: seq<Account>, byNick: Nicks, p: Parents)
    requires Forest(p) && LinksDone(recs, |recs|, p) && Listed(recs, |recs|, byNick)
    requires GroupsDone(byNick, byNick.Keys, p)
    ensures Joined(recs, p)
  {
    hide Root, Forest;
    forall u, v | Adjacent(recs, u, v) ensures u in p && v in p && Root(p, u) == Root(p, v) {
      if Linked(recs, u, v) {
        var i :| 0 <= i < |recs| && recs[i].id == u && recs[i].linked == v && u != "" && v != "";
        assert OneRoot(p, recs[i].id, recs[i].linked);
      } else if Linked(recs, v, u) {
        var i :| 0 <= i < |recs| && recs[i].id == v && recs[i].linked == u && u != "" && v != "";
        assert OneRoot(p, recs[i].id, recs[i].linked);
      } else {
        NickJoined(recs, byNick, p, u, v);
      }
    }
  }

  lemma NickJoined(recs: seq<Account>, byNick: Nicks, p: Parents, u: Id, v: Id)
    requires Forest(p) && Listed(recs, |recs|, byNick) && GroupsDone(byNick, byNick.Keys, p) && SameNick(recs, u, v)
    ensures OneRoot(p, u, v)
  {
    hide Root, Forest;
    var i, j :| 0 <= i < |recs| && 0 <= j < |recs| && recs[i].id == u && recs[j].id == v
                && u != "" && v != "" && recs[i].nick != "" && recs[i].nick == recs[j].nick;
    var ids := byNick[recs[i].nick];
    assert u in ids && v in ids && GroupDone(ids, |ids|, p);
    var s :| 0 <= s < |ids| && ids[s] == u;
    var t :| 0 <= t < |ids| && ids[t] == v;
    assert OneRoot(p, ids[s], ids[0]) && OneRoot(p, ids[t], ids[0]);
  }

  /** Where every adjacency is joined it stays so. */
  lemma JoinedStays(recs: seq<Account>, p: Parents, q: Parents)
    requires Kept(p, q) && Joined(recs, p)
    ensures Joined(recs, q)
  {
    hide Adjacent, Root, Forest;
    forall u, v | Adjacent(recs, u, v) ensures u in q && v in q && Root(q, u) == Root(q, v) {
      KeptRoot(p, q, u);
      KeptRoot(p, q, v);
    }
  }

  /** Each id met is named by its root. */
  method NameAll(pools: Pools) returns (out: map<Id, Id>)
    requires pools.Valid() && Joined(pools.recs, pools.parent)
    modifies pools
    ensures out.Keys == old(pools.parent).Keys && forall x :: x in out ==> LeastOf(pools.recs, x, out[x])
  {
    hide Kept, Root, Within, Together, Joined, Forest, LeastOf;
    out := map[];
    var todo := pools.parent.Keys;
    while todo != {}
      invariant pools.Valid() && Joined(pools.recs, pools.parent) && pools.parent.Keys == old(pools.parent).Keys
      invariant todo <= pools.parent.Keys && out.Keys == pools.parent.Keys - todo
      invariant forall x :: x in out ==> LeastOf(pools.recs, x, out[x])
      decreases |todo|
    {
      var x :| x in todo;
      ghost var p := pools.parent;
      var r := pools.Find(x);
      JoinedStays(pools.recs, p, pools.parent);
      RootIsLeast(pools.recs, pools.parent, x);
      out, todo := out[x := r], todo - {x};
    }
  }

  /** Each account's pool, by the least id in it: for every id met, and no other. */
  method FifoPoolIds(recs: seq<Account>) returns (out: map<Id, Id>)
    ensures forall x :: x in out <==> Known(recs, x)
    ensures forall x :: x in out ==> LeastOf(recs, x, out[x])
  {
    hide Merged, Within, Together, Listed, GroupsDone, LinksDone, Joined, Forest, LeastOf, KnownBy, Known;
    var pools := new Pools(recs);
    var byNick := Gather(pools);
    ghost var p1 := pools.parent;
    JoinGroups(pools, byNick);
    MergedIsForest(p1, pools.parent);
    LinksStay(recs, |recs|, p1, pools.parent);
    AllJoined(recs, byNick, pools.parent);
    out := NameAll(pools);
    forall x ensures x in out <==> Known(recs, x) {
      assert x in out <==> x in out.Keys;
      assert x in p1.Keys <==> x in p1;
      KnownByAll(recs, x);
    }
  }

  lemma KnownByAll(recs: seq<Account>, x: Id)
    ensures KnownBy(recs, |recs|, x) <==> Known(recs, x)
  {
  }
}
