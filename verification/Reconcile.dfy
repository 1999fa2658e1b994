/** What writing one document over another comes to: the result says what the source says, and
    everything still there is the thing it was. */
module Reconcile {
  import opened Trading
  import opened Documents

  /** The field that keys the rows at a path, when one does: an empty name is none. */
  function KeyFor(keys: Keys, path: seq<string>): Option<string> {
    match KeyAt(keys, path)
    case Some(k) => if k == "" then None else Some(k)
    case None => None
  }

  /** The lists at a path are matched row by row. */
  predicate ByRow(t: Doc, s: Doc, keys: Keys, path: seq<string>)
    requires t.Arr? && s.Arr?
  {
    && KeyFor(keys, path).Some?
    && KeysOf(s.items, KeyFor(keys, path).value).Some?
    && KeysOf(t.items, KeyFor(keys, path).value).Some?
  }

  /** An object of the target once the source's object has been written into it. */
  function Over(t: Doc, s: Doc, keys: Keys, path: seq<string>): (r: Doc)
    requires t.Obj? && s.Obj?
    ensures r.Obj? && r.ref == t.ref
    decreases s, 0
  {
    Obj(t.ref, map k | k in s.fields :: Field(t.Get(k), s.fields[k], keys, path + [k]))
  }

  function Field(was: Option<Doc>, v: Doc, keys: Keys, path: seq<string>): (r: Doc)
    decreases v, 2
  {
    if was.Some? && was.value.Obj? && v.Obj? then Over(was.value, v, keys, path)
    else if was.Some? && was.value.Arr? && v.Arr? then RowsOver(was.value, v, keys, path)
    else if was.Some? && Says(was.value) == Says(v) then was.value
    else v
  }

  function RowsOver(t: Doc, s: Doc, keys: Keys, path: seq<string>): (r: Doc)
    requires t.Arr? && s.Arr?
    ensures r.Arr? && r.ref == t.ref
    decreases s, 1
  {
    if ByRow(t, s, keys, path) then
      var key := KeyFor(keys, path).value;
      Arr(t.ref, seq(|s.items|, i requires 0 <= i < |s.items| => RowOver(t.items, s.items[i], key, keys, path + ["*"])))
    else if Says(t) == Says(s) then t
    else Arr(t.ref, s.items)
  }

  /** A row of the source: written into the row held under its key, else itself. */
  function RowOver(held: seq<Doc>, row: Doc, key: string, keys: Keys, path: seq<string>): (r: Doc)
    decreases row, 1
  {
    if RowKey(row, key).None? then row
    else
      match Find(held, key, RowKey(row, key).value)
      case Some(j) => Over(held[j], row, keys, path)
      case None => row
  }

  // ----- it says what the source says

  lemma {:induction false} OverSays(t: Doc, s: Doc, keys: Keys, path: seq<string>)
    requires t.Obj? && s.Obj?
    ensures Says(Over(t, s, keys, path)) == Says(s)
    decreases s, 0
  {
    forall k | k in s.fields ensures Says(Field(t.Get(k), s.fields[k], keys, path + [k])) == Says(s.fields[k]) {
      FieldSays(t.Get(k), s.fields[k], keys, path + [k]);
    }
  }

  lemma {:induction false} FieldSays(was: Option<Doc>, v: Doc, keys: Keys, path: seq<string>)
    ensures Says(Field(was, v, keys, path)) == Says(v)
    decreases v, 2
  {
    if was.Some? && was.value.Obj? && v.Obj? {
      OverSays(was.value, v, keys, path);
    } else if was.Some? && was.value.Arr? && v.Arr? {
      RowsSay(was.value, v, keys, path);
    }
  }

  lemma {:induction false} RowsSay(t: Doc, s: Doc, keys: Keys, path: seq<string>)
    requires t.Arr? && s.Arr?
    ensures Says(RowsOver(t, s, keys, path)) == Says(s)
    decreases s, 1
  {
    if ByRow(t, s, keys, path) {
      var key := KeyFor(keys, path).value;
      forall i | 0 <= i < |s.items|
        ensures Says(RowOver(t.items, s.items[i], key, keys, path + ["*"])) == Says(s.items[i])
      {
        RowSays(t.items, s.items[i], key, keys, path + ["*"]);
      }
    }
  }

  lemma {:induction false} RowSays(held: seq<Doc>, row: Doc, key: string, keys: Keys, path: seq<string>)
    ensures Says(RowOver(held, row, key, keys, path)) == Says(row)
    decreases row, 1
  {
    if RowKey(row, key).Some? {
      match Find(held, key, RowKey(row, key).value)
      case Some(j) => OverSays(held[j], row, keys, path);
      case None =>
    }
  }

  // ----- it is made of the target's things and the source's, each in one place

  lemma {:induction false} OverRefs(t: Doc, s: Doc, keys: Keys, path: seq<string>)
    requires t.Obj? && s.Obj?
    ensures Refs(Over(t, s, keys, path)) <= Refs(t) + Refs(s)
    decreases s, 0
  {
    var r := Over(t, s, keys, path);
    forall k | k in r.fields ensures Refs(r.fields[k]) <= Refs(t) + Refs(s) {
      FieldRefsIn(t.Get(k), s.fields[k], keys, path + [k]);
      FieldRefs(s, k);
      if k in t.fields { FieldRefs(t, k); }
    }
  }

  ghost function RefsOf(was: Option<Doc>): set<Ref> {
    match was
    case Some(d) => Refs(d)
    case None => {}
  }

  lemma {:induction false} FieldRefsIn(was: Option<Doc>, v: Doc, keys: Keys, path: seq<string>)
    ensures Refs(Field(was, v, keys, path)) <= RefsOf(was) + Refs(v)
    decreases v, 2
  {
    if was.Some? && was.value.Obj? && v.Obj? {
      OverRefs(was.value, v, keys, path);
    } else if was.Some? && was.value.Arr? && v.Arr? {
      RowsRefs(was.value, v, keys, path);
    }
  }

  lemma {:induction false} RowsRefs(t: Doc, s: Doc, keys: Keys, path: seq<string>)
    requires t.Arr? && s.Arr?
    ensures Refs(RowsOver(t, s, keys, path)) <= Refs(t) + Refs(s)
    decreases s, 1
  {
    var r := RowsOver(t, s, keys, path);
    if ByRow(t, s, keys, path) {
      var key := KeyFor(keys, path).value;
      forall i | 0 <= i < |r.items| ensures Refs(r.items[i]) <= Refs(t) + Refs(s) {
        RowRefs(t.items, s.items[i], key, keys, path + ["*"]);
        HeldRefs(t, s.items[i], key);
        ItemRefs(s, i);
      }
    }
  }

  /** The things of the row held under a row's key. */
  ghost function Held(held: seq<Doc>, row: Doc, key: string): set<Ref> {
    if RowKey(row, key).None? then {}
    else
      match Find(held, key, RowKey(row, key).value)
      case Some(j) => Refs(held[j])
      case None => {}
  }

  lemma HeldRefs(t: Doc, row: Doc, key: string)
    requires t.Arr?
    ensures Held(t.items, row, key) <= Refs(t)
  {
  }

  lemma {:induction false} RowRefs(held: seq<Doc>, row: Doc, key: string, keys: Keys, path: seq<string>)
    ensures Refs(RowOver(held, row, key, keys, path)) <= Held(held, row, key) + Refs(row)
    decreases row, 1
  {
    if RowKey(row, key).Some? {
      match Find(held, key, RowKey(row, key).value)
      case Some(j) => OverRefs(held[j], row, keys, path);
      case None =>
    }
  }

  lemma {:induction false} OverTree(t: Doc, s: Doc, keys: Keys, path: seq<string>)
    requires t.Obj? && s.Obj? && Tree(t) && Tree(s) && Refs(t) !! Refs(s)
    ensures Tree(Over(t, s, keys, path))
    decreases s, 0
  {
    var r := Over(t, s, keys, path);
    forall k | k in r.fields
      ensures Tree(r.fields[k]) && r.ref !in Refs(r.fields[k])
      ensures Refs(r.fields[k]) <= RefsOf(t.Get(k)) + Refs(s.fields[k])
    {
      FieldRefs(s, k);
      if k in t.fields { FieldRefs(t, k); }
      FieldTree(t.Get(k), s.fields[k], keys, path + [k]);
      FieldRefsIn(t.Get(k), s.fields[k], keys, path + [k]);
      assert t.ref in Refs(t);
    }
    forall k, l | k in r.fields && l in r.fields && k != l ensures Refs(r.fields[k]) !! Refs(r.fields[l]) {
      FieldRefs(s, k); FieldRefs(s, l);
      if k in t.fields { FieldRefs(t, k); }
      if l in t.fields { FieldRefs(t, l); }
    }
  }

  lemma {:induction false} FieldTree(was: Option<Doc>, v: Doc, keys: Keys, path: seq<string>)
    requires Tree(v) && (was.Some? ==> Tree(was.value)) && RefsOf(was) !! Refs(v)
    ensures Tree(Field(was, v, keys, path))
    decreases v, 2
  {
    if was.Some? && was.value.Obj? && v.Obj? {
      OverTree(was.value, v, keys, path);
    } else if was.Some? && was.value.Arr? && v.Arr? {
      RowsTree(was.value, v, keys, path);
    }
  }

  lemma {:induction false} RowsTree(t: Doc, s: Doc, keys: Keys, path: seq<string>)
    requires t.Arr? && s.Arr? && Tree(t) && Tree(s) && Refs(t) !! Refs(s)
    ensures Tree(RowsOver(t, s, keys, path))
    decreases s, 1
  {
    var r := RowsOver(t, s, keys, path);
    if ByRow(t, s, keys, path) {
      var key := KeyFor(keys, path).value;
      KeysOfKeyed(s.items, key);
      forall i | 0 <= i < |r.items|
        ensures Tree(r.items[i]) && r.ref !in Refs(r.items[i])
        ensures Refs(r.items[i]) <= Held(t.items, s.items[i], key) + Refs(s.items[i])
      {
        ItemRefs(s, i);
        HeldRefs(t, s.items[i], key);
        RowRefs(t.items, s.items[i], key, keys, path + ["*"]);
        RowTree(t, s.items[i], key, keys, path + ["*"]);
      }
      forall i, j | 0 <= i < j < |r.items| ensures Refs(r.items[i]) !! Refs(r.items[j]) {
        ItemRefs(s, i); ItemRefs(s, j);
        HeldRefs(t, s.items[i], key); HeldRefs(t, s.items[j], key);
        HeldApart(t, s.items[i], s.items[j], key);
      }
    } else if Says(t) != Says(s) {
      forall i | 0 <= i < |r.items| ensures r.ref !in Refs(r.items[i]) {
        ItemRefs(s, i);
        assert t.ref in Refs(t);
      }
    }
  }

  /** Rows of different keys are written into different rows. */
  lemma HeldApart(t: Doc, a: Doc, b: Doc, key: string)
    requires t.Arr? && Tree(t) && RowKey(a, key) != RowKey(b, key)
    ensures Held(t.items, a, key) !! Held(t.items, b, key)
  {
  }

  lemma {:induction false} RowTree(t: Doc, row: Doc, key: string, keys: Keys, path: seq<string>)
    requires t.Arr? && Tree(t) && Tree(row) && Refs(t) !! Refs(row)
    ensures Tree(RowOver(t.items, row, key, keys, path)) && t.ref !in Refs(RowOver(t.items, row, key, keys, path))
    decreases row, 1
  {
    RowRefs(t.items, row, key, keys, path);
    assert t.ref in Refs(t);
    if RowKey(row, key).Some? {
      match Find(t.items, key, RowKey(row, key).value)
      case Some(j) =>
        ItemRefs(t, j);
        OverTree(t.items[j], row, keys, path);
      case None =>
    }
  }

  // ----- nothing is written where nothing differs

  /** A document written over one that says the same already leaves it as it is, each thing in
      its place. */
  lemma {:induction false} SameStays(t: Doc, s: Doc, keys: Keys, path: seq<string>)
    requires t.Obj? && s.Obj? && Says(t) == Says(s)
    ensures Over(t, s, keys, path) == t
    decreases s, 0
  {
    SameFields(t, s);
    forall k | k in s.fields ensures Field(t.Get(k), s.fields[k], keys, path + [k]) == t.fields[k] {
      SameField(t.fields[k], s.fields[k], keys, path + [k]);
    }
    assert Over(t, s, keys, path).fields == t.fields;
  }

  lemma {:induction false} SameField(was: Doc, v: Doc, keys: Keys, path: seq<string>)
    requires Says(was) == Says(v)
    ensures Field(Some(was), v, keys, path) == was
    decreases v, 2
  {
    if was.Obj? && v.Obj? {
      SameStays(was, v, keys, path);
    } else if was.Arr? && v.Arr? {
      SameRows(was, v, keys, path);
    }
  }

  lemma {:induction false} SameRows(t: Doc, s: Doc, keys: Keys, path: seq<string>)
    requires t.Arr? && s.Arr? && Says(t) == Says(s)
    ensures RowsOver(t, s, keys, path) == t
    decreases s, 1
  {
    SameItems(t, s);
    if ByRow(t, s, keys, path) {
      var key := KeyFor(keys, path).value;
      KeysOfKeyed(t.items, key);
      forall i | 0 <= i < |s.items| ensures RowOver(t.items, s.items[i], key, keys, path + ["*"]) == t.items[i] {
        SameKey(t.items[i], s.items[i], key);
        assert Find(t.items, key, RowKey(s.items[i], key).value) == Some(i);
        SameStays(t.items[i], s.items[i], keys, path + ["*"]);
      }
      assert RowsOver(t, s, keys, path).items == t.items;
    }
  }

  // ----- what was there is the same thing

  /** Every list on the path is matched row by row in both documents, by the key the step names. */
  ghost predicate Matched(t: Doc, s: Doc, p: seq<Step>, keys: Keys, path: seq<string>) {
    p == []
    || (&& Go(t, p[0]).Some? && Go(s, p[0]).Some?
        && (p[0].Row? ==> ByRow(t, s, keys, path) && KeyFor(keys, path) == Some(p[0].key))
        && Matched(Go(t, p[0]).value, Go(s, p[0]).value, p[1..], keys, path + [p[0].Name()]))
  }

  /** What is at a path in both is, afterwards, what was at that path with the source's written
      over it: so an object or a list in both is the same object or list. */
  lemma {:induction false} SameThing(t: Doc, s: Doc, p: seq<Step>, keys: Keys, path: seq<string>)
    requires Matched(t, s, p, keys, path)
    ensures var r := Field(Some(t), s, keys, path);
            && Walk(t, p).Some? && Walk(s, p).Some?
            && Walk(r, p) == Some(Field(Walk(t, p), Walk(s, p).value, keys, path + Names(p)))
            && (Walk(t, p).value.Obj? && Walk(s, p).value.Obj? ==>
                  Walk(r, p).value.Obj? && Walk(r, p).value.ref == Walk(t, p).value.ref)
            && (Walk(t, p).value.Arr? && Walk(s, p).value.Arr? ==>
                  Walk(r, p).value.Arr? && Walk(r, p).value.ref == Walk(t, p).value.ref)
    decreases |p|
  {
    if p == [] {
      assert path + Names(p) == path;
    } else {
      var t', s' := Go(t, p[0]).value, Go(s, p[0]).value;
      SameThing(t', s', p[1..], keys, path + [p[0].Name()]);
      assert path + Names(p) == path + [p[0].Name()] + Names(p[1..]);
      if p[0].Row? {
        RowGoes(t, s, p[0].id, keys, path);
      }
    }
  }

  /** A row keyed in both is found under its key, written over. */
  lemma RowGoes(t: Doc, s: Doc, id: string, keys: Keys, path: seq<string>)
    requires t.Arr? && s.Arr? && ByRow(t, s, keys, path)
    requires var key := KeyFor(keys, path).value; Find(t.items, key, id).Some? && Find(s.items, key, id).Some?
    ensures var key := KeyFor(keys, path).value;
            Go(RowsOver(t, s, keys, path), Row(key, id))
            == Some(Field(Some(t.items[Find(t.items, key, id).value]), s.items[Find(s.items, key, id).value], keys,
                path + ["*"]))
  {
    var key := KeyFor(keys, path).value;
    var r, i, j := RowsOver(t, s, keys, path), Find(s.items, key, id).value, Find(t.items, key, id).value;
    KeysOfKeyed(s.items, key);
    KeysOfKeyed(t.items, key);
    forall n | 0 <= n < |r.items| ensures RowKey(r.items[n], key) == RowKey(s.items[n], key) {
      RowSays(t.items, s.items[n], key, keys, path + ["*"]);
      SameKey(r.items[n], s.items[n], key);
    }
    assert Find(r.items, key, id) == Some(i);
  }

  // ----- which lists are matched row by row

  /** A pattern of the table spells the path: step by step the same, or any step where it says `*`. */
  predicate Spells(pattern: seq<string>, path: seq<string>) {
    |pattern| == |path| && forall i :: 0 <= i < |path| ==> pattern[i] in {path[i], "*"}
  }

  /** Entry `i` is the first of the table that spells the path. */
  ghost predicate FirstFor(keys: Keys, path: seq<string>, i: nat) {
    i < |keys| && Spells(keys[i].0, path) && forall j :: 0 <= j < i ==> !Spells(keys[j].0, path)
  }

  lemma {:induction false} KeyAtIsFirst(keys: Keys, path: seq<string>)
    ensures forall i: nat :: FirstFor(keys, path, i) ==> KeyAt(keys, path) == Some(keys[i].1)
    ensures (forall i :: 0 <= i < |keys| ==> !Spells(keys[i].0, path)) ==> KeyAt(keys, path) == None
  {
    hide Spells, Matches;
    if keys != [] {
      KeyAtIsFirst(keys[1..], path);
      MatchesSpells(keys[0].0, path);
      forall i: nat | FirstFor(keys, path, i) && i > 0 ensures FirstFor(keys[1..], path, i - 1) {
        assert forall j :: 0 <= j < i - 1 ==> keys[1..][j] == keys[j + 1];
      }
    }
  }

  lemma MatchesSpells(pattern: seq<string>, path: seq<string>)
    ensures Matches(pattern, path) <==> Spells(pattern, path)
  {
  }

  /** Two lists at a path are matched row by row exactly where the first entry of the table that spells the
      path names a field, and that field tells the rows of each apart. */
  lemma ByRowWhere(t: Doc, s: Doc, keys: Keys, path: seq<string>)
    requires t.Arr? && s.Arr?
    ensures forall i: nat :: FirstFor(keys, path, i) ==>
              (ByRow(t, s, keys, path)
               <==> keys[i].1 != "" && Keyed(s.items, keys[i].1) && Keyed(t.items, keys[i].1))
    ensures (forall i :: 0 <= i < |keys| ==> !Spells(keys[i].0, path)) ==> !ByRow(t, s, keys, path)
  {
    hide Spells, KeyAt, Keyed, KeysOf;
    KeyAtIsFirst(keys, path);
    forall i: nat | FirstFor(keys, path, i)
      ensures ByRow(t, s, keys, path) <==> keys[i].1 != "" && Keyed(s.items, keys[i].1) && Keyed(t.items, keys[i].1)
    {
      KeysOfKeyed(s.items, keys[i].1);
      KeysOfKeyed(t.items, keys[i].1);
    }
  }
}
