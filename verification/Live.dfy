/** Writing the server's word into the things the page holds: the store changed in place. Each
    method is proved to leave in the store what the functions of module Reconcile say. */
module Live {
  import opened Trading
  import opened Documents
  import opened Reconcile
  import opened Patches

  /** The store holds one document at one reference. */
  lemma {:induction false} HeldOnce(store: Store, a: Doc, b: Doc)
    requires Holds(store, a) && Holds(store, b) && ValOf(a) == ValOf(b)
    ensures a == b
    decreases a
  {
    match a
    case Leaf(_) =>
    case Obj(r, fields) =>
      assert b.Obj? && FieldVals(fields) == FieldVals(b.fields);
      assert fields.Keys == FieldVals(fields).Keys == b.fields.Keys;
      forall k | k in fields ensures fields[k] == b.fields[k] {
        assert FieldVals(fields)[k] == FieldVals(b.fields)[k];
        HeldOnce(store, fields[k], b.fields[k]);
      }
    case Arr(r, items) =>
      assert b.Arr? && ItemVals(items) == ItemVals(b.items);
      forall i | 0 <= i < |items| ensures items[i] == b.items[i] {
        assert ItemVals(items)[i] == ItemVals(b.items)[i];
        HeldOnce(store, items[i], b.items[i]);
      }
  }

  lemma ListsSay(a: Doc, b: Doc)
    requires a.Arr? && b.Arr?
    ensures Says(a) == Says(b) <==> |a.items| == |b.items| && forall i :: 0 <= i < |a.items| ==>
              Says(a.items[i]) == Says(b.items[i])
  {
    if Says(a) == Says(b) { SameItems(a, b); }
  }

  lemma ObjectsSay(a: Doc, b: Doc)
    requires a.Obj? && b.Obj?
    ensures Says(a) == Says(b) <==> a.fields.Keys == b.fields.Keys && forall k :: k in a.fields ==>
              k in b.fields && Says(a.fields[k]) == Says(b.fields[k])
  {
    if Says(a) == Says(b) {
      SameFields(a, b);
    }
  }

  /** As many keys, each of them there: the same keys. */
  lemma SameSize(a: set<string>, b: set<string>)
    requires |a| == |b| && a <= b
    ensures a == b
  {
    assert |b - a| == |b| - |a|;
  }

  function KeyTextOf(v: Val): Option<string> {
    match v
    case P(Text(t)) => Some(t)
    case P(Number(t)) => Some(t)
    case _ => None
  }

  function RowKeyOf(store: Store, row: Val, key: string): Option<string> {
    if row.At? && row.ref in store && store[row.ref].Fields? && key in store[row.ref].fields
    then KeyTextOf(store[row.ref].fields[key]) else None
  }

  lemma RowKeyIs(store: Store, row: Doc, key: string)
    requires Holds(store, row)
    ensures RowKeyOf(store, ValOf(row), key) == RowKey(row, key)
  {
  }

  ghost predicate HoldsAll(store: Store, docs: seq<Doc>) {
    forall i :: 0 <= i < |docs| ==> Holds(store, docs[i])
  }

  // ----- how far a write has come

  /** The target's fields with those of `done` written. */
  ghost function Mixed(t: Doc, s: Doc, keys: Keys, path: seq<string>, done: set<string>): map<string, Val>
    requires t.Obj? && s.Obj?
  {
    map k | k in s.fields && (k in done || k in t.fields) ::
      ValOf(if k in done then Field(t.Get(k), s.fields[k], keys, path + [k]) else t.fields[k])
  }

  ghost predicate Writing(was: Store, now: Store, t: Doc, s: Doc, keys: Keys, path: seq<string>, done: set<string>)
    requires t.Obj? && s.Obj?
  {
    && OnlyWithin(was, now, Refs(t))
    && t.ref in now && now[t.ref] == Fields(Mixed(t, s, keys, path, done))
    && (forall k :: k in done ==> k in s.fields && Holds(now, Field(t.Get(k), s.fields[k], keys, path + [k])))
    && (forall k :: k in t.fields && k !in done ==> Agree(was, now, Refs(t.fields[k])))
  }

  ghost predicate Ready(was: Store, t: Doc, s: Doc) {
    Holds(was, t) && Holds(was, s) && Tree(t) && Refs(t) !! Refs(s)
  }

  /** A field not come to yet is as it was, and so is all of the source. */
  lemma NotYet(was: Store, now: Store, t: Doc, s: Doc, keys: Keys, path: seq<string>, done: set<string>, k: string)
    requires t.Obj? && s.Obj? && Ready(was, t, s) && Writing(was, now, t, s, keys, path, done) && k in s.fields
    requires k !in done
    ensures Holds(now, s) && Holds(now, s.fields[k])
    ensures k in t.fields ==> Ready(now, t.fields[k], s.fields[k])
    ensures (k in Mixed(t, s, keys, path, done) <==> k in t.fields)
    ensures (k in t.fields ==> Mixed(t, s, keys, path, done)[k] == ValOf(t.fields[k]))
  {
    FramedOutside(was, now, s, Refs(t));
    FieldRefs(s, k);
    if k in t.fields {
      FieldRefs(t, k);
      Framed(was, now, t.fields[k]);
    }
  }

  /** A field is written: its own things, and its place in the target. */
  lemma Wrote(was: Store, now: Store, mid: Store, next: Store, t: Doc, s: Doc, keys: Keys, path: seq<string>,
      done: set<string>, k: string)
    requires t.Obj? && s.Obj? && Ready(was, t, s) && Writing(was, now, t, s, keys, path, done) && k in s.fields
    requires k !in done
    requires OnlyWithin(now, mid, RefsOf(t.Get(k))) && Holds(mid, Field(t.Get(k), s.fields[k], keys, path + [k]))
    requires next == mid[t.ref := Fields(Mixed(t, s, keys, path, done + {k}))]
    ensures Writing(was, next, t, s, keys, path, done + {k})
  {
    hide Holds, Field, Mixed, Refs, Tree;
    assert RefsOf(t.Get(k)) <= Refs(t) && t.ref in Refs(t) by { WithinTarget(t, k); }
    forall l | l in done + {k} ensures l in s.fields && Holds(next, Field(t.Get(l), s.fields[l], keys, path + [l])) {
      StillHeld(now, mid, next, t, s, keys, path, k, l);
    }
    forall l | l in t.fields && l !in done + {k} ensures Agree(was, next, Refs(t.fields[l])) {
      StillThere(was, now, mid, next, t, k, l);
    }
  }

  lemma WithinTarget(t: Doc, k: string)
    requires t.Obj?
    ensures RefsOf(t.Get(k)) <= Refs(t) && t.ref in Refs(t)
  {
  }

  lemma StillHeld(now: Store, mid: Store, next: Store, t: Doc, s: Doc, keys: Keys, path: seq<string>, k: string,
      l: string)
    requires t.Obj? && s.Obj? && Tree(t) && Refs(t) !! Refs(s) && l in s.fields && t.ref in mid
    requires OnlyWithin(now, mid, RefsOf(t.Get(k))) && OnlyWithin(mid, next, {t.ref})
    requires Holds(if l == k then mid else now, Field(t.Get(l), s.fields[l], keys, path + [l]))
    ensures Holds(next, Field(t.Get(l), s.fields[l], keys, path + [l]))
  {
    hide Holds, Field, Tree;
    var d := Field(t.Get(l), s.fields[l], keys, path + [l]);
    Apart(t, s, keys, path, k, l);
    if l != k {
      FramedOutside(now, mid, d, RefsOf(t.Get(k)));
    }
    FramedOutside(mid, next, d, {t.ref});
  }

  lemma StillThere(was: Store, now: Store, mid: Store, next: Store, t: Doc, k: string, l: string)
    requires t.Obj? && Tree(t) && l in t.fields && l != k && was.Keys == now.Keys
    requires Agree(was, now, Refs(t.fields[l])) && OnlyWithin(now, mid, RefsOf(t.Get(k)))
    requires OnlyWithin(mid, next, {t.ref})
    ensures Agree(was, next, Refs(t.fields[l]))
  {
    assert t.ref !in Refs(t.fields[l]) && RefsOf(t.Get(k)) !! Refs(t.fields[l]);
  }

  /** What is in a field afterwards is of that field, and of the source. */
  lemma Apart(t: Doc, s: Doc, keys: Keys, path: seq<string>, k: string, l: string)
    requires t.Obj? && s.Obj? && Tree(t) && Refs(t) !! Refs(s) && l in s.fields
    ensures var refs := Refs(Field(t.Get(l), s.fields[l], keys, path + [l]));
            t.ref !in refs && (l != k ==> RefsOf(t.Get(k)) !! refs)
  {
    FieldRefsIn(t.Get(l), s.fields[l], keys, path + [l]);
    FieldRefs(s, l);
    assert t.ref in Refs(t);
    if k in t.fields { FieldRefs(t, k); }
  }

  lemma AllWritten(was: Store, now: Store, t: Doc, s: Doc, keys: Keys, path: seq<string>)
    requires t.Obj? && s.Obj? && Writing(was, now, t, s, keys, path, s.fields.Keys)
    ensures Holds(now, Over(t, s, keys, path)) && OnlyWithin(was, now, Refs(t))
  {
    var r := Over(t, s, keys, path);
    assert Mixed(t, s, keys, path, s.fields.Keys) == FieldVals(r.fields);
    forall k | k in r.fields ensures Holds(now, r.fields[k]) {
      assert k in s.fields.Keys;
    }
  }

  // ----- how far the rows of a list have come

  ghost predicate Taken(t: Doc, s: Doc, key: string, n: nat, j: nat)
    requires t.Arr? && s.Arr? && n <= |s.items| && j < |t.items|
  {
    exists i :: 0 <= i < n && RowKey(s.items[i], key) == RowKey(t.items[j], key)
  }

  /** The first `n` rows of the source are written, each into the row it is matched with. */
  ghost predicate Matching(was: Store, now: Store, t: Doc, s: Doc, key: string, keys: Keys, path: seq<string>, n: nat)
    requires t.Arr? && s.Arr?
  {
    && n <= |s.items| && OnlyWithin(was, now, Refs(t) - {t.ref})
    && (forall i :: 0 <= i < n ==> Holds(now, RowOver(t.items, s.items[i], key, keys, path)))
    && (forall j :: 0 <= j < |t.items| && !Taken(t, s, key, n, j) ==> Agree(was, now, Refs(t.items[j])))
  }

  /** The row held under a row's key, if one is, and the row itself are as they were. */
  lemma NotMatchedYet(was: Store, now: Store, t: Doc, s: Doc, key: string, keys: Keys, path: seq<string>, n: nat)
    requires t.Arr? && s.Arr? && Ready(was, t, s) && n < |s.items| && Matching(was, now, t, s, key, keys, path, n)
    requires Keyed(s.items, key)
    ensures Holds(now, s) && Holds(now, s.items[n]) && RowKey(s.items[n], key).Some?
    ensures match Find(t.items, key, RowKey(s.items[n], key).value)
            case Some(j) => t.items[j].Obj? && s.items[n].Obj? && Ready(now, t.items[j], s.items[n])
            case None => true
  {
    hide RowOver;
    FramedOutside(was, now, s, Refs(t) - {t.ref});
    ItemRefs(s, n);
    var found := Find(t.items, key, RowKey(s.items[n], key).value);
    if found.Some? {
      ItemRefs(t, found.value);
      assert !Taken(t, s, key, n, found.value);
      Framed(was, now, t.items[found.value]);
    }
  }

  lemma RowApart(t: Doc, s: Doc, key: string, keys: Keys, path: seq<string>, n: nat, i: nat)
    requires t.Arr? && s.Arr? && Tree(t) && Refs(t) !! Refs(s) && Keyed(s.items, key) && i < |s.items|
    requires n < |s.items| && i != n
    ensures Held(t.items, s.items[n], key) !! Refs(RowOver(t.items, s.items[i], key, keys, path))
  {
    RowRefs(t.items, s.items[i], key, keys, path);
    HeldApart(t, s.items[n], s.items[i], key);
    HeldRefs(t, s.items[n], key);
    ItemRefs(s, i);
  }

  lemma NoneMatched(was: Store, t: Doc, s: Doc, key: string, keys: Keys, path: seq<string>)
    requires t.Arr? && s.Arr?
    ensures Matching(was, was, t, s, key, keys, path, 0)
  {
  }

  lemma NothingWritten(store: Store)
    ensures OnlyWithin(store, store, {})
  {
  }

  lemma MatchedOne(was: Store, now: Store, next: Store, t: Doc, s: Doc, key: string, keys: Keys, path: seq<string>,
      n: nat)
    requires t.Arr? && s.Arr? && Ready(was, t, s) && n < |s.items| && Matching(was, now, t, s, key, keys, path, n)
    requires Keyed(s.items, key)
    requires OnlyWithin(now, next, Held(t.items, s.items[n], key))
    requires Holds(next, RowOver(t.items, s.items[n], key, keys, path))
    ensures Matching(was, next, t, s, key, keys, path, n + 1)
  {
    hide Holds, RowOver;
    HeldInside(t, s.items[n], key);
    forall i | 0 <= i < n + 1 ensures Holds(next, RowOver(t.items, s.items[i], key, keys, path)) {
      if i < n {
        RowApart(t, s, key, keys, path, n, i);
        FramedOutside(now, next, RowOver(t.items, s.items[i], key, keys, path), Held(t.items, s.items[n], key));
      }
    }
    forall j | 0 <= j < |t.items| && !Taken(t, s, key, n + 1, j) ensures Agree(was, next, Refs(t.items[j])) {
      assert !Taken(t, s, key, n, j) && RowKey(s.items[n], key) != RowKey(t.items[j], key);
      HeldElsewhere(t, s.items[n], key, j);
    }
  }

  lemma HeldInside(t: Doc, row: Doc, key: string)
    requires t.Arr? && Tree(t)
    ensures Held(t.items, row, key) <= Refs(t) - {t.ref}
  {
  }

  lemma HeldElsewhere(t: Doc, row: Doc, key: string, j: nat)
    requires t.Arr? && Tree(t) && j < |t.items| && RowKey(row, key) != RowKey(t.items[j], key)
    ensures Held(t.items, row, key) !! Refs(t.items[j])
  {
  }

  lemma AllMatched(was: Store, now: Store, next: Store, t: Doc, s: Doc, keys: Keys, path: seq<string>, vals: seq<Val>)
    requires t.Arr? && s.Arr? && Ready(was, t, s) && ByRow(t, s, keys, path)
    requires Matching(was, now, t, s, KeyFor(keys, path).value, keys, path + ["*"], |s.items|)
    requires vals == ItemVals(RowsOver(t, s, keys, path).items) && next == now[t.ref := Items(vals)]
    ensures Holds(next, RowsOver(t, s, keys, path)) && OnlyWithin(was, next, Refs(t))
  {
    hide RowOver;
    var key, r := KeyFor(keys, path).value, RowsOver(t, s, keys, path);
    assert t.ref in Refs(t);
    forall i | 0 <= i < |r.items| ensures Holds(next, r.items[i]) {
      RowOutside(t, s.items[i], key, keys, path + ["*"]);
      ItemRefs(s, i);
      FramedOutside(now, next, r.items[i], {t.ref});
    }
  }

  lemma RowOutside(t: Doc, row: Doc, key: string, keys: Keys, path: seq<string>)
    requires t.Arr? && Tree(t)
    ensures t.ref !in Refs(row) ==> t.ref !in Refs(RowOver(t.items, row, key, keys, path))
  {
    RowRefs(t.items, row, key, keys, path);
    HeldInside(t, row, key);
  }

  class Page {
    var store: Store

    constructor (store: Store)
      ensures this.store == store
    {
      this.store := store;
    }

    /** Whether two values say the same. */
    method Same(a: Val, b: Val, ghost da: Doc, ghost db: Doc) returns (eq: bool)
      requires Holds(store, da) && Holds(store, db) && ValOf(da) == a && ValOf(db) == b
      ensures eq <==> Says(da) == Says(db)
      decreases da
    {
      if a == b {
        HeldOnce(store, da, db);
        return true;
      }
      if a.At? && b.At? && store[a.ref].Items? && store[b.ref].Items? {
        ListsSay(da, db);
        var x, y := store[a.ref].items, store[b.ref].items;
        eq := |x| == |y|;
        var i := 0;
        while eq && i < |x|
          invariant 0 <= i <= |x|
          invariant eq ==> |x| == |y| && forall j :: 0 <= j < i ==> Says(da.items[j]) == Says(db.items[j])
          invariant !eq ==> Says(da) != Says(db)
        {
          eq := Same(x[i], y[i], da.items[i], db.items[i]);
          i := i + 1;
        }
        return;
      }
      if a.At? && b.At? && store[a.ref].Fields? && store[b.ref].Fields? {
        eq := SameFieldsOf(a.ref, b.ref, da, db);
        return;
      }
      return false;
    }

    method SameFieldsOf(a: Ref, b: Ref, ghost da: Doc, ghost db: Doc) returns (eq: bool)
      requires Holds(store, da) && Holds(store, db) && da.Obj? && db.Obj? && da.ref == a && db.ref == b
      ensures eq <==> Says(da) == Says(db)
      decreases da, 0
    {
      ObjectsSay(da, db);
      var x, y := store[a].fields, store[b].fields;
      assert x.Keys == da.fields.Keys && y.Keys == db.fields.Keys;
      if |x.Keys| != |y.Keys| {
        return false;
      }
      eq := true;
      var todo := x.Keys;
      while eq && todo != {}
        invariant todo <= x.Keys
        invariant eq ==> forall k :: k in x.Keys - todo ==> k in y && Says(da.fields[k]) == Says(db.fields[k])
        invariant !eq ==> Says(da) != Says(db)
        decreases todo
      {
        var k :| k in todo;
        todo := todo - {k};
        if k in y {
          eq := Same(x[k], y[k], da.fields[k], db.fields[k]);
        } else {
          eq := false;
        }
      }
      if eq {
        SameSize(x.Keys, y.Keys);
      }
    }

    /** Make the target say what the source says, writing only where they differ. */
    method Reconcile(target: Ref, source: Ref, keys: Keys, path: seq<string>, ghost t: Doc, ghost s: Doc)
      requires t.Obj? && s.Obj? && t.ref == target && s.ref == source && Ready(store, t, s)
      modifies this
      ensures Holds(store, Over(t, s, keys, path)) && OnlyWithin(old(store), store, Refs(t))
      decreases s, 2
    {
      hide Holds, Field, Over, Tree;
      ghost var was := store;
      Drop(target, source, keys, path, t, s);
      var fields := SourceFields(source, s);
      var todo := fields.Keys;
      while todo != {}
        invariant todo <= fields.Keys == s.fields.Keys && fields == FieldVals(s.fields)
        invariant Writing(was, store, t, s, keys, path, s.fields.Keys - todo)
        decreases todo
      {
        var k :| k in todo;
        ghost var done := s.fields.Keys - todo;
        todo := todo - {k};
        Write(target, k, fields[k], keys, path, t, s, was, done);
        assert done + {k} == s.fields.Keys - todo;
      }
      assert s.fields.Keys - todo == s.fields.Keys;
      AllWritten(was, store, t, s, keys, path);
    }

    method SourceFields(source: Ref, ghost s: Doc) returns (fields: map<string, Val>)
      requires s.Obj? && s.ref == source && Holds(store, s)
      ensures fields == FieldVals(s.fields)
    {
      fields := store[source].fields;
    }

    /** Fields the source has not go. */
    method Drop(target: Ref, source: Ref, keys: Keys, path: seq<string>, ghost t: Doc, ghost s: Doc)
      requires t.Obj? && s.Obj? && t.ref == target && s.ref == source && Ready(store, t, s)
      modifies this
      ensures Writing(old(store), store, t, s, keys, path, {}) && Holds(store, s)
    {
      hide Field, Tree;
      ghost var was := store;
      assert target in Refs(t) && source in Refs(s);
      hide Refs;
      var todo := store[target].fields.Keys;
      while todo != {}
        invariant todo <= t.fields.Keys && OnlyWithin(was, store, {target}) && store[target].Fields?
        invariant store[target].fields == map k | k in t.fields && (k in todo || k in s.fields) :: ValOf(t.fields[k])
        decreases todo
      {
        var k :| k in todo;
        todo := todo - {k};
        if k !in store[source].fields {
          store := store[target := Fields(store[target].fields - {k})];
        }
      }
      Dropped(was, store, t, s, keys, path);
    }

    /** One field of the source. */
    method Write(target: Ref, k: string, v: Val, keys: Keys, path: seq<string>, ghost t: Doc, ghost s: Doc,
        ghost was: Store, ghost done: set<string>)
      requires t.Obj? && s.Obj? && t.ref == target && Ready(was, t, s) && Writing(was, store, t, s, keys, path, done)
      requires k in s.fields && k !in done && v == ValOf(s.fields[k])
      modifies this
      ensures Writing(was, store, t, s, keys, path, done + {k})
      decreases s, 1
    {
      hide Holds, Mixed, Tree, Over, RowsOver;
      ghost var now := store;
      NotYet(was, now, t, s, keys, path, done, k);
      ghost var d := s.fields[k];
      var held := store[target].fields;
      if k in held {
        ghost var h := t.fields[k];
        KindOf(store, h);
        KindOf(store, d);
        if held[k].At? && v.At? && store[held[k].ref].Fields? && store[v.ref].Fields? {
          Reconcile(held[k].ref, v.ref, keys, path + [k], h, d);
          Settled(was, now, store, t, s, keys, path, done, k);
        } else if held[k].At? && v.At? && store[held[k].ref].Items? && store[v.ref].Items? {
          ReconcileRows(held[k].ref, v.ref, keys, path + [k], h, d);
          Settled(was, now, store, t, s, keys, path, done, k);
        } else {
          var eq := Same(held[k], v, h, d);
          if eq {
            Settled(was, now, store, t, s, keys, path, done, k);
          } else {
            store := store[target := Fields(held[k := v])];
            Replaced(was, now, store, t, s, keys, path, done, k);
          }
        }
      } else {
        store := store[target := Fields(held[k := v])];
        Replaced(was, now, store, t, s, keys, path, done, k);
      }
    }

    method ReconcileRows(target: Ref, source: Ref, keys: Keys, path: seq<string>, ghost t: Doc, ghost s: Doc)
      requires t.Arr? && s.Arr? && t.ref == target && s.ref == source && Ready(store, t, s)
      modifies this
      ensures Holds(store, RowsOver(t, s, keys, path)) && OnlyWithin(old(store), store, Refs(t))
      decreases s, 2
    {
      hide Over, RowOver, Tree, Refs;
      ghost var was := store;
      assert HoldsAll(store, t.items) && HoldsAll(store, s.items);
      var items, from := store[target].items, store[source].items;
      var key := KeyFor(keys, path);
      var now, had: Option<seq<string>> := None, None;
      if key.Some? {
        now := KeysOfRows(from, key.value, s.items);
        had := KeysOfRows(items, key.value, t.items);
      }
      if key.None? || now.None? || had.None? {
        assert !ByRow(t, s, keys, path);
        var eq := Same(At(target), At(source), t, s);
        if !eq {
          store := store[target := Items(from)];
          WroteWhole(was, store, t, s, keys, path);
        }
        return;
      }
      assert ByRow(t, s, keys, path);
      var next := RowByRow(items, from, now.value, had.value, key.value, keys, path + ["*"], t, s);
      Unmoved(was, store, t);
      assert next == ItemVals(RowsOver(t, s, keys, path).items);
      ghost var mid := store;
      if next != items {
        store := store[target := Items(next)];
      }
      assert store == mid[target := Items(next)];
      AllMatched(was, mid, store, t, s, keys, path, next);
    }

    /** Each row of the source, written into the row held under its key. */
    method RowByRow(items: seq<Val>, from: seq<Val>, now: seq<string>, had: seq<string>, key: string, keys: Keys,
        path: seq<string>, ghost t: Doc, ghost s: Doc)
      returns (next: seq<Val>)
      requires t.Arr? && s.Arr? && Ready(store, t, s) && items == ItemVals(t.items) && from == ItemVals(s.items)
      requires KeysOf(s.items, key) == Some(now) && KeysOf(t.items, key) == Some(had)
      modifies this
      ensures Matching(old(store), store, t, s, key, keys, path, |s.items|)
      ensures |next| == |s.items| && forall i :: 0 <= i < |next| ==>
                next[i] == ValOf(RowOver(t.items, s.items[i], key, keys, path))
      decreases s, 1
    {
      hide Over, RowOver, Tree, Refs, Holds, Matching, OnlyWithin;
      ghost var was := store;
      KeysOfKeyed(s.items, key);
      var have := HaveRows(items, had, key, t);
      next := [];
      NoneMatched(was, t, s, key, keys, path);
      for i := 0 to |from|
        invariant Matching(was, store, t, s, key, keys, path, i)
        invariant |next| == i && forall j :: 0 <= j < i ==>
                    next[j] == ValOf(RowOver(t.items, s.items[j], key, keys, path))
      {
        ghost var before := store;
        NotMatchedYet(was, store, t, s, key, keys, path, i);
        OneRow(t, s, key, keys, path, i);
        if now[i] in have {
          ghost var j := Find(t.items, key, now[i]).value;
          Reconcile(have[now[i]].ref, from[i].ref, keys, path, t.items[j], s.items[i]);
          next := next + [have[now[i]]];
        } else {
          next := next + [from[i]];
          NothingWritten(store);
        }
        MatchedOne(was, before, store, t, s, key, keys, path, i);
      }
    }

    /** The rows held, by their keys. */
    method HaveRows(items: seq<Val>, had: seq<string>, key: string, ghost t: Doc) returns (have: map<string, Val>)
      requires t.Arr? && items == ItemVals(t.items) && KeysOf(t.items, key) == Some(had)
      ensures forall id :: id in have <==> Find(t.items, key, id).Some?
      ensures forall id :: id in have ==>
                have[id] == ValOf(t.items[Find(t.items, key, id).value]) && t.items[Find(t.items, key, id).value].Obj?
    {
      KeysOfKeyed(t.items, key);
      have := map[];
      for i := 0 to |items|
        invariant forall id :: id in have <==> id in had[..i]
        invariant forall j :: 0 <= j < i ==> had[j] in have && have[had[j]] == items[j]
      {
        have := have[had[i] := items[i]];
      }
      forall id ensures id in have <==> Find(t.items, key, id).Some? {
        if Find(t.items, key, id).Some? {
          assert had[Find(t.items, key, id).value] == id;
        }
      }
    }

    // ----- the server's edits

    /** The first row of a list with the key. */
    method FindRow(rows: seq<Val>, key: string, id: string, ghost docs: seq<Doc>) returns (at: Option<nat>)
      requires ItemVals(docs) == rows && HoldsAll(store, docs)
      ensures at == Find(docs, key, id)
    {
      for i := 0 to |rows|
        invariant forall j :: 0 <= j < i ==> RowKey(docs[j], key) != Some(id)
      {
        RowKeyIs(store, docs[i], key);
        if RowKeyOf(store, rows[i], key) == Some(id) {
          return Some(i);
        }
      }
      return None;
    }

    /** What a path leads to. */
    method WalkTo(root: Val, path: seq<Step>, ghost d: Doc) returns (at: Option<Val>)
      requires Holds(store, d) && ValOf(d) == root
      ensures match Walk(d, path) case Some(x) => at == Some(ValOf(x)) && Holds(store, x) case None => at == None
    {
      var v := root;
      ghost var x := d;
      for i := 0 to |path|
        invariant Holds(store, x) && v == ValOf(x) && Walk(d, path) == Walk(x, path[i..])
      {
        KindOf(store, x);
        assert path[i..][0] == path[i] && path[i..][1..] == path[i + 1..];
        match path[i] {
          case To(name) =>
            if !v.At? || !store[v.ref].Fields? || name !in store[v.ref].fields {
              return None;
            }
            assert name in x.fields;
            v := store[v.ref].fields[name];
            x := x.fields[name];
          case Row(key, id) =>
            if !v.At? || !store[v.ref].Items? {
              return None;
            }
            var n := FindRow(store[v.ref].items, key, id, x.items);
            if n.None? {
              return None;
            }
            v := store[v.ref].items[n.value];
            x := x.items[n.value];
        }
      }
      return Some(v);
    }

    /** The rows named, in order: the one held under its key, else the one added. */
    method OrderRows(rows: seq<Val>, key: string, order: seq<string>, added: map<string, Val>, ghost docs: seq<Doc>,
        ghost news: map<string, Doc>)
      returns (next: seq<Val>)
      requires ItemVals(docs) == rows && HoldsAll(store, docs) && added == FieldVals(news)
      ensures next == ItemVals(Ordered(docs, key, order, news))
    {
      hide LastAt, Ordered, HoldsAll;
      var have := LastRows(rows, key, docs);
      next := [];
      NoneOrdered(docs, key, news);
      for i := 0 to |order|
        invariant next == ItemVals(Ordered(docs, key, order[..i], news))
      {
        OneOrdered(docs, key, order, news, i);
        if order[i] in have {
          next := next + [have[order[i]]];
        } else if order[i] in added {
          next := next + [added[order[i]]];
        }
      }
      assert order[..|order|] == order;
    }

    /** The rows held, each under its key, the last of two that share one. */
    method LastRows(rows: seq<Val>, key: string, ghost docs: seq<Doc>) returns (have: map<string, Val>)
      requires ItemVals(docs) == rows && HoldsAll(store, docs)
      ensures forall id :: id in have <==> LastAt(docs, key, id).Some?
      ensures forall id :: id in have ==> have[id] == ValOf(docs[LastAt(docs, key, id).value])
    {
      hide RowKeyOf, RowKey, Holds, Filed;
      have := map[];
      NoneFiled(docs, key);
      for i := 0 to |rows|
        invariant Filed(docs, i, key, have)
      {
        RowKeyIs(store, docs[i], key);
        var t := RowKeyOf(store, rows[i], key);
        OneFiled(docs, i, key, have);
        have := have[(match t case Some(k) => k case None => "") := rows[i]];
      }
      AllFiled(docs, key, have);
    }

    /** A whole patch, edit after edit. What is returned names the rows it touched. */
    method ApplyOps(root: Val, ops: seq<Op<Val>>, ghost d: Doc, ghost ods: seq<Op<Doc>>) returns (touched: set<string>)
      requires Holds(store, d) && Tree(d) && ValOf(d) == root && |ops| == |ods| && forall i :: 0 <= i < |ops| ==>
                 ops[i] == Sent(ods[i])
      requires AllNew(store, d, ods)
      modifies this
      ensures Holds(store, AppliedAll(d, ods)) && Tree(AppliedAll(d, ods))
      ensures OnlyWithin(old(store), store, Refs(d) + BatchRefs(ods))
      ensures touched == set i, j | 0 <= i < |ops| && 0 <= j < |ops[i].path| && ops[i].path[j].Row? :: ops[i].path[j].id
    {
      hide Holds, Tree, Refs, Applied, NewRefs, RowsNamed, RowsOn;
      ghost var was := store;
      touched := {};
      NothingYet(ops, ods);
      for n := 0 to |ops|
        invariant Holds(store, AppliedAll(d, ods[..n])) && Tree(AppliedAll(d, ods[..n]))
        invariant ValOf(AppliedAll(d, ods[..n])) == root
        invariant Refs(AppliedAll(d, ods[..n])) <= Refs(d) + BatchRefs(ods[..n])
        invariant OnlyWithin(was, store, Refs(d) + BatchRefs(ods[..n]))
        invariant touched == RowsNamed(ops[..n])
      {
        OneMoreNamed(ops, n);
        touched := touched + RowsOn(ops[n].path);
        ghost var now, before := store, AppliedAll(d, ods[..n]);
        assert ods[..n + 1][..n] == ods[..n];
        StillNew(was, now, d, ods, n);
        ApplyOp(root, ops[n], before, ods[n]);
        AppliedTree(before, ods[n]);
        OneMoreRefs(ods, n);
      }
      assert ods[..|ods|] == ods && ops[..|ops|] == ops;
      RowsNamedAre(ops);
    }

    /** One edit, made in the one thing its path leads to. */
    method ApplyOp(root: Val, op: Op<Val>, ghost d: Doc, ghost od: Op<Doc>)
      requires Holds(store, d) && Tree(d) && ValOf(d) == root && op == Sent(od)
      requires NewsHeld(store, ChangeOf(od)) && NewRefs(ChangeOf(od)) !! Refs(d)
      modifies this
      ensures Holds(store, Applied(d, od)) && OnlyWithin(old(store), store, Refs(d))
    {
      hide Holds, Tree, Ordered, Refs, NewRefs, Edit;
      if op.path == [] && !op.Rows? {
        NoChange(d, od);
        return;
      }
      var parent := if op.Rows? then op.path else op.path[..|op.path| - 1];
      assert parent == Parent(od);
      var at := WalkTo(root, parent, d);
      if at.None? || !at.value.At? {
        NoParent(d, parent, ChangeOf(od));
        return;
      }
      ghost var x := Walk(d, parent).value;
      KindOf(store, x);
      if op.Rows? {
        OrderAt(at.value.ref, op, d, od, x);
      } else if op.path[|op.path| - 1].To? {
        PutAt(at.value.ref, op, d, od, x);
      } else {
        PutRowAt(at.value.ref, op, d, od, x);
      }
    }

    method OrderAt(at: Ref, op: Op<Val>, ghost d: Doc, ghost od: Op<Doc>, ghost x: Doc)
      requires Holds(store, d) && Tree(d) && op == Sent(od) && op.Rows? && NewsHeld(store, ChangeOf(od))
      requires NewRefs(ChangeOf(od)) !! Refs(d)
      requires Walk(d, Parent(od)) == Some(x) && Holds(store, x) && ValOf(x) == At(at)
      modifies this
      ensures Holds(store, Applied(d, od)) && OnlyWithin(old(store), store, Refs(d))
    {
      hide Tree, Ordered, Refs, NewRefs, Edit;
      ghost var was := store;
      if store[at].Items? {
        assert HoldsAll(store, x.items);
        var next := OrderRows(store[at].items, op.key, op.order, op.added, x.items, od.added);
        store := store[at := Items(next)];
      }
      Unchanged(was, x);
      assert store == was[at := NodeOf(Make(x, ChangeOf(od)))];
      EditHolds(was, store, d, Parent(od), ChangeOf(od));
    }

    method PutAt(at: Ref, op: Op<Val>, ghost d: Doc, ghost od: Op<Doc>, ghost x: Doc)
      requires Holds(store, d) && Tree(d) && op == Sent(od) && !op.Rows? && op.path != [] && op.path[|op.path| - 1].To?
      requires NewsHeld(store, ChangeOf(od)) && NewRefs(ChangeOf(od)) !! Refs(d)
      requires Walk(d, Parent(od)) == Some(x) && Holds(store, x) && ValOf(x) == At(at)
      modifies this
      ensures Holds(store, Applied(d, od)) && OnlyWithin(old(store), store, Refs(d))
    {
      hide Tree, Ordered, Refs, NewRefs, Edit;
      ghost var was := store;
      var name := op.path[|op.path| - 1].name;
      if store[at].Fields? {
        if op.Set? {
          store := store[at := Fields(store[at].fields[name := op.v])];
          assert FieldVals(x.fields[name := od.v]) == FieldVals(x.fields)[name := op.v];
        } else {
          store := store[at := Fields(store[at].fields - {name})];
          assert FieldVals(x.fields - {name}) == FieldVals(x.fields) - {name};
        }
      }
      Unchanged(was, x);
      assert store == was[at := NodeOf(Make(x, ChangeOf(od)))];
      EditHolds(was, store, d, Parent(od), ChangeOf(od));
    }

    method PutRowAt(at: Ref, op: Op<Val>, ghost d: Doc, ghost od: Op<Doc>, ghost x: Doc)
      requires Holds(store, d) && Tree(d) && op == Sent(od) && !op.Rows? && op.path != [] && op.path[|op.path| - 1].Row?
      requires NewsHeld(store, ChangeOf(od)) && NewRefs(ChangeOf(od)) !! Refs(d)
      requires Walk(d, Parent(od)) == Some(x) && Holds(store, x) && ValOf(x) == At(at)
      modifies this
      ensures Holds(store, Applied(d, od)) && OnlyWithin(old(store), store, Refs(d))
    {
      hide Tree, Ordered, Refs, NewRefs, Edit;
      ghost var was := store;
      var last := op.path[|op.path| - 1];
      if op.Set? && store[at].Items? {
        assert HoldsAll(store, x.items);
        var n := FindRow(store[at].items, last.key, last.id, x.items);
        if n.Some? {
          store := store[at := Items(store[at].items[n.value := op.v])];
          assert ItemVals(x.items[n.value := od.v]) == ItemVals(x.items)[n.value := op.v];
        }
      }
      Unchanged(was, x);
      assert store == was[at := NodeOf(Make(x, ChangeOf(od)))];
      EditHolds(was, store, d, Parent(od), ChangeOf(od));
    }

    method KeysOfRows(rows: seq<Val>, key: string, ghost docs: seq<Doc>) returns (out: Option<seq<string>>)
      requires ItemVals(docs) == rows && HoldsAll(store, docs)
      ensures out == KeysOf(docs, key)
    {
      hide RowKeyOf, RowKey, Holds;
      var seen: seq<string> := [];
      for i := 0 to |rows|
        invariant KeysOf(docs[..i], key) == Some(seen)
      {
        RowKeyIs(store, docs[i], key);
        assert docs[..i + 1][..i] == docs[..i];
        var t := RowKeyOf(store, rows[i], key);
        if t.None? || t.value in seen {
          NoKeys(docs, key, i + 1);
          return None;
        }
        seen := seen + [t.value];
      }
      assert docs[..|rows|] == docs;
      return Some(seen);
    }
  }

  lemma KindOf(store: Store, d: Doc)
    requires Holds(store, d)
    ensures d.Leaf? <==> ValOf(d).P?
    ensures !d.Leaf? ==>
              ValOf(d).ref == d.ref && d.ref in store && (d.Obj? <==> store[d.ref].Fields?)
              && (d.Arr? <==> store[d.ref].Items?)
  {
  }

  lemma NotInField(was: Store, t: Doc, s: Doc, k: string)
    requires t.Obj? && Ready(was, t, s) && k in t.fields
    ensures t.ref !in Refs(t.fields[k])
  {
  }

  lemma Dropped(was: Store, now: Store, t: Doc, s: Doc, keys: Keys, path: seq<string>)
    requires t.Obj? && s.Obj? && Ready(was, t, s) && OnlyWithin(was, now, {t.ref}) && t.ref in now && now[t.ref].Fields?
    requires now[t.ref].fields == map k | k in t.fields && k in s.fields :: ValOf(t.fields[k])
    ensures Writing(was, now, t, s, keys, path, {}) && Holds(now, s)
  {
    hide Field, Holds;
    assert now[t.ref].fields == Mixed(t, s, keys, path, {});
    assert t.ref in Refs(t);
    FramedOutside(was, now, s, {t.ref});
    forall k | k in t.fields ensures Agree(was, now, Refs(t.fields[k])) {
      assert t.ref !in Refs(t.fields[k]);
    }
  }

  /** The field is held where it was, its own things written or not. */
  lemma Settled(was: Store, now: Store, mid: Store, t: Doc, s: Doc, keys: Keys, path: seq<string>, done: set<string>,
      k: string)
    requires t.Obj? && s.Obj? && Ready(was, t, s) && Writing(was, now, t, s, keys, path, done) && k in s.fields
    requires k !in done && k in t.fields
    requires OnlyWithin(now, mid, Refs(t.fields[k])) && Holds(mid, Field(t.Get(k), s.fields[k], keys, path + [k]))
    requires ValOf(Field(t.Get(k), s.fields[k], keys, path + [k])) == ValOf(t.fields[k])
    ensures Writing(was, mid, t, s, keys, path, done + {k})
  {
    hide Field, Holds, Ready, Refs, Mixed;
    MixedStays(t, s, keys, path, done, k);
    NotInField(was, t, s, k);
    assert mid[t.ref] == now[t.ref];
    assert mid == mid[t.ref := Fields(Mixed(t, s, keys, path, done + {k}))];
    Wrote(was, now, mid, mid, t, s, keys, path, done, k);
  }

  lemma MixedStays(t: Doc, s: Doc, keys: Keys, path: seq<string>, done: set<string>, k: string)
    requires t.Obj? && s.Obj? && k in s.fields && k !in done && k in t.fields
    requires ValOf(Field(t.Get(k), s.fields[k], keys, path + [k])) == ValOf(t.fields[k])
    ensures Mixed(t, s, keys, path, done + {k}) == Mixed(t, s, keys, path, done)
  {
    hide Field;
  }

  /** The source's own value is put there. */
  lemma Replaced(was: Store, now: Store, next: Store, t: Doc, s: Doc, keys: Keys, path: seq<string>,
      done: set<string>, k: string)
    requires t.Obj? && s.Obj? && Ready(was, t, s) && Writing(was, now, t, s, keys, path, done) && k in s.fields
    requires k !in done
    requires Holds(now, s.fields[k]) && Field(t.Get(k), s.fields[k], keys, path + [k]) == s.fields[k]
    requires next == now[t.ref := Fields(now[t.ref].fields[k := ValOf(s.fields[k])])]
    ensures Writing(was, next, t, s, keys, path, done + {k})
  {
    hide Field, Holds;
    assert Mixed(t, s, keys, path, done + {k}) == Mixed(t, s, keys, path, done)[k := ValOf(s.fields[k])];
    Wrote(was, now, now, next, t, s, keys, path, done, k);
  }

  lemma WroteWhole(was: Store, now: Store, t: Doc, s: Doc, keys: Keys, path: seq<string>)
    requires t.Arr? && s.Arr? && Ready(was, t, s) && !ByRow(t, s, keys, path) && Says(t) != Says(s)
    requires now == was[t.ref := Items(ItemVals(s.items))]
    ensures Holds(now, RowsOver(t, s, keys, path)) && OnlyWithin(was, now, Refs(t))
  {
    assert t.ref in Refs(t);
    forall i | 0 <= i < |s.items| ensures Holds(now, s.items[i]) {
      ItemRefs(s, i);
      FramedOutside(was, now, s.items[i], {t.ref});
    }
  }

  lemma Unmoved(was: Store, now: Store, t: Doc)
    requires t.Arr? && Holds(was, t) && OnlyWithin(was, now, Refs(t) - {t.ref})
    ensures t.ref in now && now[t.ref] == Items(ItemVals(t.items))
  {
  }

  /** An edit as it is sent, its new documents values in the store. */
  ghost function Sent(op: Op<Doc>): Op<Val> {
    match op
    case Set(path, v) => Set(path, ValOf(v))
    case Del(path) => Del(path)
    case Rows(path, key, order, added) => Rows(path, key, order, FieldVals(added))
  }

  /** The rows named are those any step of any path names. */
  lemma {:induction false} RowsNamedAre(ops: seq<Op<Val>>)
    ensures RowsNamed(ops)
            == set i, j | 0 <= i < |ops| && 0 <= j < |ops[i].path| && ops[i].path[j].Row? :: ops[i].path[j].id
  {
    if ops != [] {
      RowsNamedAre(ops[..|ops| - 1]);
    }
  }

  /** The ids of the rows a path goes through. */
  function RowsOn(path: seq<Step>): set<string> {
    set j | 0 <= j < |path| && path[j].Row? :: path[j].id
  }

  function RowsNamed(ops: seq<Op<Val>>): set<string> {
    if ops == [] then {} else RowsNamed(ops[..|ops| - 1]) + RowsOn(ops[|ops| - 1].path)
  }

  lemma OneMoreNamed(ops: seq<Op<Val>>, n: nat)
    requires n < |ops|
    ensures RowsNamed(ops[..n + 1]) == RowsNamed(ops[..n]) + RowsOn(ops[n].path)
  {
    assert ops[..n + 1][..n] == ops[..n];
  }

  lemma NothingYet(ops: seq<Op<Val>>, ods: seq<Op<Doc>>)
    ensures RowsNamed(ops[..0]) == {} && BatchRefs(ods[..0]) == {}
  {
  }

  /** Everything a patch brings. */
  ghost function BatchRefs(ops: seq<Op<Doc>>): set<Ref> {
    set i, x | 0 <= i < |ops| && x in NewRefs(ChangeOf(ops[i])) :: x
  }

  /** What a patch brings is held, each in one place, and new to the document. */
  ghost predicate AllNew(store: Store, d: Doc, ops: seq<Op<Doc>>) {
    && (forall i :: 0 <= i < |ops| ==>
          Brings(ChangeOf(ops[i])) && NewsHeld(store, ChangeOf(ops[i])) && NewRefs(ChangeOf(ops[i])) !! Refs(d))
    && (forall i, j :: 0 <= i < j < |ops| ==> NewRefs(ChangeOf(ops[i])) !! NewRefs(ChangeOf(ops[j])))
  }

  lemma StillNew(was: Store, now: Store, d: Doc, ops: seq<Op<Doc>>, n: nat)
    requires AllNew(was, d, ops) && n < |ops| && OnlyWithin(was, now, Refs(d) + BatchRefs(ops[..n]))
    ensures Brings(ChangeOf(ops[n])) && NewsHeld(now, ChangeOf(ops[n]))
    ensures NewRefs(ChangeOf(ops[n])) !! Refs(d) + BatchRefs(ops[..n])
  {
    hide Holds, NewRefs, Refs, Brings;
    var c := ChangeOf(ops[n]);
    forall x | x in BatchRefs(ops[..n]) ensures x !in NewRefs(c) {
      var i :| 0 <= i < n && x in NewRefs(ChangeOf(ops[..n][i]));
      assert ops[..n][i] == ops[i];
      assert NewRefs(ChangeOf(ops[i])) !! NewRefs(ChangeOf(ops[n]));
    }
    forall v | v in News(c) ensures Holds(now, v) {
      NewIn(c, v);
      FramedOutside(was, now, v, Refs(d) + BatchRefs(ops[..n]));
    }
  }

  lemma OneMoreRefs(ops: seq<Op<Doc>>, n: nat)
    requires n < |ops|
    ensures BatchRefs(ops[..n + 1]) == BatchRefs(ops[..n]) + NewRefs(ChangeOf(ops[n]))
  {
    hide NewRefs;
    forall x ensures x in BatchRefs(ops[..n + 1]) <==> x in BatchRefs(ops[..n]) + NewRefs(ChangeOf(ops[n])) {
      if x in BatchRefs(ops[..n]) {
        var i :| 0 <= i < n && x in NewRefs(ChangeOf(ops[..n][i]));
        assert ops[..n + 1][i] == ops[i];
      }
      if x in NewRefs(ChangeOf(ops[n])) {
        assert ops[..n + 1][n] == ops[n];
      }
      if x in BatchRefs(ops[..n + 1]) {
        var i :| 0 <= i < n + 1 && x in NewRefs(ChangeOf(ops[..n + 1][i]));
        assert i < n ==> ops[..n][i] == ops[i];
      }
    }
  }

  lemma AppliedTree(d: Doc, op: Op<Doc>)
    requires Tree(d) && Brings(ChangeOf(op)) && NewRefs(ChangeOf(op)) !! Refs(d)
    ensures Tree(Applied(d, op)) && Refs(Applied(d, op)) <= Refs(d) + NewRefs(ChangeOf(op))
    ensures ValOf(Applied(d, op)) == ValOf(d)
  {
    EditTree(d, Parent(op), ChangeOf(op));
    Patches.SameThing(d, Parent(op), ChangeOf(op));
  }

  lemma NoneOrdered(docs: seq<Doc>, key: string, news: map<string, Doc>)
    ensures ItemVals(Ordered(docs, key, [], news)) == []
  {
  }

  lemma OneOrdered(docs: seq<Doc>, key: string, order: seq<string>, news: map<string, Doc>, i: nat)
    requires i < |order|
    ensures ItemVals(Ordered(docs, key, order[..i + 1], news))
            == ItemVals(Ordered(docs, key, order[..i], news))
               + match LastAt(docs, key, order[i])
                 case Some(j) => [ValOf(docs[j])]
                 case None => if order[i] in news then [FieldVals(news)[order[i]]] else []
  {
    hide LastAt;
    assert order[..i + 1][..i] == order[..i];
  }

  lemma LastOfMore(docs: seq<Doc>, key: string, n: nat)
    requires n < |docs|
    ensures forall id :: LastAt(docs[..n + 1], key, id) == if OrderKey(docs[n], key) == id then Some(n)
                                                           else LastAt(docs[..n], key, id)
  {
    var more := docs[..n + 1];
    assert more[..n] == docs[..n] && more[|more| - 1] == docs[n];
    forall id
      ensures LastAt(more, key, id) == if OrderKey(docs[n], key) == id then Some(n) else LastAt(docs[..n], key, id)
    {
    }
  }

  /** The first `n` rows are filed, the last of two that share a key. */
  ghost predicate Filed(docs: seq<Doc>, n: nat, key: string, have: map<string, Val>) {
    && n <= |docs|
    && (forall id :: id in have <==> LastAt(docs[..n], key, id).Some?)
    && (forall id :: id in have ==> have[id] == ValOf(docs[LastAt(docs[..n], key, id).value]))
  }

  lemma NoneFiled(docs: seq<Doc>, key: string)
    ensures Filed(docs, 0, key, map[])
  {
  }

  lemma OneFiled(docs: seq<Doc>, n: nat, key: string, have: map<string, Val>)
    requires n < |docs| && Filed(docs, n, key, have)
    ensures Filed(docs, n + 1, key, have[OrderKey(docs[n], key) := ValOf(docs[n])])
  {
    hide LastAt, OrderKey;
    LastOfMore(docs, key, n);
  }

  lemma AllFiled(docs: seq<Doc>, key: string, have: map<string, Val>)
    requires Filed(docs, |docs|, key, have)
    ensures forall id :: id in have <==> LastAt(docs, key, id).Some?
    ensures forall id :: id in have ==> have[id] == ValOf(docs[LastAt(docs, key, id).value])
  {
    assert docs[..|docs|] == docs;
  }

  lemma NoChange(d: Doc, op: Op<Doc>)
    requires op.path == [] && !op.Rows?
    ensures Applied(d, op) == d
  {
  }

  lemma {:induction false} NoParent(d: Doc, p: seq<Step>, c: Change)
    requires match Walk(d, p) case Some(x) => x.Leaf? case None => true
    ensures Edit(d, p, c) == d
    decreases |p|
  {
    if p != [] && Go(d, p[0]).Some? {
      NoParent(Go(d, p[0]).value, p[1..], c);
    }
  }

  lemma Unchanged(store: Store, x: Doc)
    requires Holds(store, x) && !x.Leaf?
    ensures x.ref in store && store[x.ref] == NodeOf(x) && store == store[x.ref := NodeOf(x)]
  {
  }

  lemma OneRow(t: Doc, s: Doc, key: string, keys: Keys, path: seq<string>, n: nat)
    requires t.Arr? && s.Arr? && n < |s.items| && RowKey(s.items[n], key).Some?
    ensures match Find(t.items, key, RowKey(s.items[n], key).value)
            case Some(j) =>
              && Held(t.items, s.items[n], key) == Refs(t.items[j])
              && RowOver(t.items, s.items[n], key, keys, path) == Over(t.items[j], s.items[n], keys, path)
            case None =>
              && Held(t.items, s.items[n], key) == {}
              && RowOver(t.items, s.items[n], key, keys, path) == s.items[n]
  {
  }

  lemma {:induction false} NoKeys(docs: seq<Doc>, key: string, n: nat)
    requires n <= |docs| && KeysOf(docs[..n], key).None?
    ensures KeysOf(docs, key).None?
    decreases |docs| - n
  {
    if n == |docs| {
      assert docs[..n] == docs;
    } else {
      assert docs[..n + 1][..n] == docs[..n];
      NoKeys(docs, key, n + 1);
    }
  }
}
