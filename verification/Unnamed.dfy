/** Clearing what nothing names any more: an instrument goes when no row names it and no
    contract is written on it; a contract goes first, and then what it was on. */
module Unnamed {
  type Id = int

  /** Option terms: each contract and what it is written on. */
  type Terms = map<Id, Id>

  /** What contracts are written on. */
  function Underlying(terms: Terms): set<Id> {
    set c | c in terms :: terms[c]
  }

  /** Every member is named directly, or is what another member is written on. */
  ghost predicate Supported(s: set<Id>, named: set<Id>, terms: Terms) {
    forall x :: x in s ==> x in named || WrittenOn(s, terms, x)
  }

  ghost predicate WrittenOn(s: set<Id>, terms: Terms, x: Id) {
    exists c :: c in s && c in terms && terms[c] == x
  }

  /** The rows of the book the clearing touches. `named` is every instrument some row names:
      a transaction, an adjustment, a trade, a statement, a hold, a fact, a sighting, the
      watchlist, a tile. */
  class Book {
    var instruments: set<Id>
    var terms: Terms
    var joins: set<(Id, Id)>
    var attached: set<(string, Id)>
    const named: set<Id>

    constructor (instruments: set<Id>, terms: Terms, joins: set<(Id, Id)>, attached: set<(string, Id)>, named: set<Id>)
      ensures this.instruments == instruments && this.terms == terms && this.joins == joins
      ensures this.attached == attached && this.named == named
    {
      this.instruments, this.terms, this.joins, this.attached, this.named := instruments, terms, joins, attached, named;
    }

    /** Terms are between instruments of the book, as its foreign keys have it. */
    ghost predicate Valid()
      reads this
    {
      terms.Keys <= instruments && Underlying(terms) <= instruments
    }

    /** The instruments nothing names. */
    function Unnamed(): (u: set<Id>)
      reads this
      ensures u <= instruments
    {
      set x | x in instruments && x !in named && x !in Underlying(terms)
    }

    /** What clearing has come to: the rows of `all` among the instruments left, and every part
        of the book that supports itself still there. */
    ghost predicate Cleared(all: set<Id>, terms0: Terms, joins0: set<(Id, Id)>, attached0: set<(string, Id)>)
      reads this
    {
      && Valid() && instruments <= all
      && terms == Among(terms0, instruments)
      && joins == (set j | j in joins0 && Stays(j, all, instruments))
      && attached == (set a | a in attached0 && (a.1 in all ==> a.1 in instruments))
      && HoldsSupported(instruments, all, named, terms0)
    }

    /** One round: the unnamed go, with their rows. */
    method Remove(u: set<Id>, ghost all: set<Id>, ghost terms0: Terms, ghost joins0: set<(Id, Id)>,
        ghost attached0: set<(string, Id)>)
      requires Cleared(all, terms0, joins0, attached0) && u == Unnamed()
      modifies this
      ensures Cleared(all, terms0, joins0, attached0) && instruments == old(instruments) - u
    {
      hide HoldsSupported, Stays;
      ghost var was := instruments;
      RoundHolds(was, u, all, named, terms0);
      JoinsAfter(joins0, all, was, u);
      TermsAfter(terms0, was, u);
      joins := set j | j in joins && j.0 !in u && j.1 !in u;
      terms := map c | c in terms && c !in u :: terms[c];
      attached := set a | a in attached && a.1 !in u;
      instruments := instruments - u;
    }

    /** Remove every instrument nothing left names, until none is unnamed. What is left is the
        largest part of the book that supports itself, with the rows among it and no other. */
    method ClearUnnamed()
      requires Valid()
      modifies this
      ensures Valid() && Unnamed() == {} && instruments <= old(instruments)
      ensures Supported(instruments, named, old(terms))
      ensures HoldsSupported(instruments, old(instruments), named, old(terms))
      ensures (forall x :: x in instruments <==> Reached(x, old(instruments), named, old(terms)))
              <==> CyclesReached(old(instruments), named, old(terms))
      ensures Acyclic(old(terms)) ==> forall x :: x in instruments <==> Reached(x, old(instruments), named, old(terms))
      ensures terms == Among(old(terms), instruments)
      ensures joins == set j | j in old(joins) && Stays(j, old(instruments), instruments)
      ensures attached == set a | a in old(attached) && (a.1 in old(instruments) ==> a.1 in instruments)
    {
      ghost var all, terms0, joins0, attached0 := instruments, terms, joins, attached;
      while Unnamed() != {}
        invariant Cleared(all, terms0, joins0, attached0)
        decreases |instruments|
      {
        var u := Unnamed();
        Remove(u, all, terms0, joins0, attached0);
      }
      forall x | x in instruments && x !in named ensures x in Underlying(terms) {
        assert x !in Unnamed();
      }
      LeftIsReachedIff(instruments, all, named, terms0);
      if Acyclic(terms0) {
        LeftIsReached(instruments, all, named, terms0);
      }
    }
  }

  /** The terms of the contracts in `left`. */
  function Among(terms: Terms, left: set<Id>): Terms {
    map c | c in terms && c in left :: terms[c]
  }

  /** Every part of `all` that supports itself is in `left`. */
  ghost predicate HoldsSupported(left: set<Id>, all: set<Id>, named: set<Id>, terms: Terms) {
    forall s :: s <= all && Supported(s, named, terms) ==> s <= left
  }

  lemma KeyOf(terms: Terms, x: Id) returns (c: Id)
    requires x in Underlying(terms)
    ensures c in terms && terms[c] == x
  {
    c :| c in terms && terms[c] == x;
  }

  lemma RoundHolds(was: set<Id>, u: set<Id>, all: set<Id>, named: set<Id>, terms0: Terms)
    requires HoldsSupported(was, all, named, terms0)
    requires u == set x | x in was && x !in named && x !in Underlying(Among(terms0, was))
    ensures HoldsSupported(was - u, all, named, terms0)
  {
    forall s | s <= all && Supported(s, named, terms0) ensures s <= was - u {
      SupportedStays(s, was, u, named, terms0);
    }
  }

  /** What the removed were written on may go next; nothing left is written on the removed. */
  lemma TermsAfter(terms0: Terms, was: set<Id>, u: set<Id>)
    requires Among(terms0, was).Keys <= was && Underlying(Among(terms0, was)) <= was
    requires forall x :: x in u ==> x !in Underlying(Among(terms0, was))
    ensures var terms, left := Among(terms0, was), was - u;
            && (map c | c in terms && c !in u :: terms[c]) == Among(terms0, left)
            && Among(terms0, left).Keys <= left && Underlying(Among(terms0, left)) <= left
  {
    var terms, left := Among(terms0, was), was - u;
    forall x | x in Underlying(Among(terms0, left)) ensures x in left {
      var c := KeyOf(Among(terms0, left), x);
      assert c in terms && terms[c] == x;
      assert x in Underlying(terms);
    }
  }

  /** A join stays as long as neither of its instruments is removed. */
  predicate Stays(j: (Id, Id), all: set<Id>, left: set<Id>) {
    (j.0 in all ==> j.0 in left) && (j.1 in all ==> j.1 in left)
  }

  lemma SupportedStays(s: set<Id>, left: set<Id>, u: set<Id>, named: set<Id>, terms0: Terms)
    requires Supported(s, named, terms0) && s <= left
    requires u == set x | x in left && x !in named && x !in Underlying(Among(terms0, left))
    ensures s <= left - u
  {
    var terms := Among(terms0, left);
    forall x | x in s ensures x !in u {
      if x !in named {
        assert WrittenOn(s, terms0, x);
        var c :| c in s && c in terms0 && terms0[c] == x;
        assert c in terms && terms[c] == x;
      }
    }
  }

  lemma JoinsAfter(joins0: set<(Id, Id)>, all: set<Id>, was: set<Id>, u: set<Id>)
    requires u <= was <= all
    ensures (set j | j in (set i | i in joins0 && Stays(i, all, was)) && j.0 !in u && j.1 !in u)
            == set j | j in joins0 && Stays(j, all, was - u)
  {
  }

  // ----- what that is, where option terms have no cycle

  /** From a directly named instrument, contract by contract, to what it is written on. */
  ghost predicate Chain(p: seq<Id>, all: set<Id>, named: set<Id>, terms: Terms) {
    p != [] && p[0] in named && p[0] in all && Links(p, terms)
  }

  ghost predicate Reached(x: Id, all: set<Id>, named: set<Id>, terms: Terms) {
    exists p :: Chain(p, all, named, terms) && p[|p| - 1] == x
  }

  /** Each contract ranks before what it is written on. */
  ghost predicate Ranks(rank: map<Id, nat>, terms: Terms) {
    forall c :: c in terms ==> c in rank && terms[c] in rank && rank[c] < rank[terms[c]]
  }

  ghost predicate Acyclic(terms: Terms) {
    exists rank :: Ranks(rank, terms)
  }

  lemma ReachedNext(c: Id, all: set<Id>, named: set<Id>, terms: Terms)
    requires Reached(c, all, named, terms) && c in terms
    ensures Reached(terms[c], all, named, terms)
  {
    var p :| Chain(p, all, named, terms) && p[|p| - 1] == c;
    var q := p + [terms[c]];
    assert Chain(q, all, named, terms) && q[|q| - 1] == terms[c];
  }

  /** What is reached supports itself, so the clearing leaves it. */
  lemma {:induction false} ReachedIsLeft(p: seq<Id>, left: set<Id>, all: set<Id>, named: set<Id>, terms: Terms)
    requires Underlying(terms) <= all && Chain(p, all, named, terms)
    requires HoldsSupported(left, all, named, terms)
    ensures p[|p| - 1] in left
  {
    var s := set i | 0 <= i < |p| :: p[i];
    forall x | x in s ensures x in all && (x in named || WrittenOn(s, terms, x)) {
      var i :| 0 <= i < |p| && p[i] == x;
      if i > 0 {
        assert p[i - 1] in s && p[i - 1] in terms && terms[p[i - 1]] == p[i];
        assert p[i] in Underlying(terms);
      }
    }
    assert forall x :: x in s ==> x in all;
    assert s <= all;
    assert Supported(s, named, terms);
    assert p[|p| - 1] in s;
  }

  /** With ranks, what supports itself is reached: going back from contract to contract ends. */
  lemma {:induction false} SupportedIsReached(x: Id, s: set<Id>, all: set<Id>, named: set<Id>, terms: Terms,
      rank: map<Id, nat>)
    requires Supported(s, named, terms) && s <= all && Ranks(rank, terms) && x in s
    ensures Reached(x, all, named, terms)
    decreases if x in rank then rank[x] else 0
  {
    if x in named {
      NamedIsReached(all, named, terms);
    } else {
      assert WrittenOn(s, terms, x);
      var c :| c in s && c in terms && terms[c] == x;
      SupportedIsReached(c, s, all, named, terms, rank);
      ReachedNext(c, all, named, terms);
    }
  }

  /** Where option terms are acyclic, the part left is exactly what is reached from the directly
      named instruments, contract to underlying. */
  lemma LeftIsReached(left: set<Id>, all: set<Id>, named: set<Id>, terms: Terms)
    requires Underlying(terms) <= all && left <= all && Acyclic(terms) && Supported(left, named, terms)
    requires HoldsSupported(left, all, named, terms)
    ensures forall x :: x in left <==> Reached(x, all, named, terms)
  {
    var rank :| Ranks(rank, terms);
    forall x ensures x in left <==> Reached(x, all, named, terms) {
      if x in left {
        SupportedIsReached(x, left, all, named, terms, rank);
      }
      if Reached(x, all, named, terms) {
        var p :| Chain(p, all, named, terms) && p[|p| - 1] == x;
        ReachedIsLeft(p, left, all, named, terms);
      }
    }
  }

  // ----- and where it has

  /** Contract by contract, from the first of `p` to the last. */
  ghost predicate Links(p: seq<Id>, terms: Terms) {
    forall i :: 0 <= i < |p| - 1 ==> p[i] in terms && terms[p[i]] == p[i + 1]
  }

  ghost predicate Cycle(p: seq<Id>, terms: Terms) {
    |p| >= 2 && Links(p, terms) && p[0] == p[|p| - 1]
  }

  /** Every cycle of contracts is reached from a directly named instrument. */
  ghost predicate CyclesReached(all: set<Id>, named: set<Id>, terms: Terms) {
    forall p :: Cycle(p, terms) ==> Reached(p[0], all, named, terms)
  }

  /** Each of `s` is what another of `s` is written on. */
  ghost predicate HoldsItselfUp(s: set<Id>, terms: Terms) {
    forall x :: x in s ==> WrittenOn(s, terms, x)
  }

  /** What nothing but itself holds up has a cycle: going back from contract to contract stays
      inside it, and comes round. */
  lemma {:induction false} GoesRound(p: seq<Id>, s: set<Id>, terms: Terms) returns (cycle: seq<Id>)
    requires p != [] && Links(p, terms) && HoldsItselfUp(s, terms)
    requires forall i :: 0 <= i < |p| ==> p[i] in s
    ensures Cycle(cycle, terms) && cycle[0] in s
    decreases s - set x | x in p
  {
    assert p[0] in s && WrittenOn(s, terms, p[0]);
    var c :| c in s && c in terms && terms[c] == p[0];
    if c in p {
      var j :| 0 <= j < |p| && p[j] == c;
      cycle := [c] + p[..j + 1];
    } else {
      assert c in s - set x | x in p;
      cycle := GoesRound([c] + p, s, terms);
    }
  }

  /** An unreached cycle holds itself up, so the clearing leaves it. */
  lemma CycleIsLeft(p: seq<Id>, left: set<Id>, all: set<Id>, named: set<Id>, terms: Terms)
    requires Underlying(terms) <= all && HoldsSupported(left, all, named, terms) && Cycle(p, terms)
    ensures p[0] in left
  {
    var s := set i | 0 <= i < |p| :: p[i];
    forall x | x in s ensures x in all && WrittenOn(s, terms, x) {
      var i :| 0 <= i < |p| && p[i] == x;
      var before := if i == 0 then p[|p| - 2] else p[i - 1];
      assert before in s && before in terms && terms[before] == x;
      assert x in Underlying(terms);
    }
    assert forall x :: x in s ==> x in all;
    assert s <= all;
    assert Supported(s, named, terms);
    assert p[0] in s;
  }

  lemma NamedIsReached(all: set<Id>, named: set<Id>, terms: Terms)
    ensures forall x :: x in all && x in named ==> Reached(x, all, named, terms)
  {
    forall x | x in all && x in named ensures Reached(x, all, named, terms) {
      assert Chain([x], all, named, terms) && [x][|[x]| - 1] == x;
    }
  }

  /** Left but not reached: then a cycle is unreached. */
  lemma UnreachedHasCycle(x: Id, left: set<Id>, all: set<Id>, named: set<Id>, terms: Terms)
    requires left <= all && Supported(left, named, terms) && x in left && !Reached(x, all, named, terms)
    ensures !CyclesReached(all, named, terms)
  {
    var s := set y | y in left && !Reached(y, all, named, terms);
    forall y | y in s ensures WrittenOn(s, terms, y) {
      NamedIsReached(all, named, terms);
      assert WrittenOn(left, terms, y);
      var c :| c in left && c in terms && terms[c] == y;
      if Reached(c, all, named, terms) {
        ReachedNext(c, all, named, terms);
      }
      assert c in s;
    }
    var cycle := GoesRound([x], s, terms);
    assert Cycle(cycle, terms) && !Reached(cycle[0], all, named, terms);
  }

  /** In general the part left is exactly what is reached if and only if every cycle of contracts
      is itself reached. */
  lemma LeftIsReachedIff(left: set<Id>, all: set<Id>, named: set<Id>, terms: Terms)
    requires Underlying(terms) <= all && left <= all && Supported(left, named, terms)
    requires HoldsSupported(left, all, named, terms)
    ensures (forall x :: x in left <==> Reached(x, all, named, terms)) <==> CyclesReached(all, named, terms)
  {
    forall x | Reached(x, all, named, terms) ensures x in left {
      var p :| Chain(p, all, named, terms) && p[|p| - 1] == x;
      ReachedIsLeft(p, left, all, named, terms);
    }
    forall x | x in left && !Reached(x, all, named, terms) ensures !CyclesReached(all, named, terms) {
      UnreachedHasCycle(x, left, all, named, terms);
    }
    forall p | Cycle(p, terms) ensures p[0] in left {
      CycleIsLeft(p, left, all, named, terms);
    }
  }

  /** A contract written on itself holds itself up. */
  lemma CycleStays()
    ensures var terms := map[1 := 1];
            Supported({1}, {}, terms) && !Reached(1, {1}, {}, terms)
  {
    var terms: Terms := map[1 := 1];
    assert WrittenOn({1}, terms, 1) by {
      assert 1 in {1} && 1 in terms && terms[1] == 1;
    }
  }
}
