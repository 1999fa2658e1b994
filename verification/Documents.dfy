/** Documents as the page holds them: JSON whose objects and lists are things in a store, each
    with an identity of its own, written into and never replaced while it is still there. */
module Documents {
  import opened Trading

  type Ref = nat

  /** A number by the text JavaScript writes of it. */
  datatype Prim = Text(text: string) | Number(text: string) | Bool(b: bool) | Null

  /** A value held: a primitive, or the thing at a reference. */
  datatype Val = P(p: Prim) | At(ref: Ref)

  datatype Node = Fields(fields: map<string, Val>) | Items(items: seq<Val>)

  type Store = map<Ref, Node>

  /** A document read off the store: its values, and which thing each is. */
  datatype Doc =
    | Leaf(p: Prim)
    | Obj(ref: Ref, fields: map<string, Doc>)
    | Arr(ref: Ref, items: seq<Doc>)
  {
    function Get(k: string): Option<Doc> {
      if Obj? && k in fields then Some(fields[k]) else None
    }
  }

  /** What a document says, whichever things say it. */
  datatype Plain = Value(p: Prim) | Object(fields: map<string, Plain>) | List(items: seq<Plain>)

  function Says(d: Doc): Plain {
    match d
    case Leaf(p) => Value(p)
    case Obj(_, fields) => Object(map k | k in fields :: Says(fields[k]))
    case Arr(_, items) => List(seq(|items|, i requires 0 <= i < |items| => Says(items[i])))
  }

  function ValOf(d: Doc): Val {
    match d
    case Leaf(p) => P(p)
    case Obj(r, _) => At(r)
    case Arr(r, _) => At(r)
  }

  // ----- which things a document is made of

  ghost function Refs(d: Doc): set<Ref> {
    match d
    case Leaf(_) => {}
    case Obj(r, fields) => {r} + set k, x | k in fields && x in Refs(fields[k]) :: x
    case Arr(r, items) => {r} + set i, x | 0 <= i < |items| && x in Refs(items[i]) :: x
  }

  /** No thing is in two places of the document. */
  ghost predicate Tree(d: Doc) {
    match d
    case Leaf(_) => true
    case Obj(r, fields) =>
      && (forall k :: k in fields ==> Tree(fields[k]) && r !in Refs(fields[k]))
      && (forall k, l :: k in fields && l in fields && k != l ==> Refs(fields[k]) !! Refs(fields[l]))
    case Arr(r, items) =>
      && (forall i :: 0 <= i < |items| ==> Tree(items[i]) && r !in Refs(items[i]))
      && (forall i, j :: 0 <= i < j < |items| ==> Refs(items[i]) !! Refs(items[j]))
  }

  function FieldVals(fields: map<string, Doc>): map<string, Val> {
    map k | k in fields :: ValOf(fields[k])
  }

  function ItemVals(items: seq<Doc>): (vals: seq<Val>)
    ensures |vals| == |items| && forall i :: 0 <= i < |items| ==> vals[i] == ValOf(items[i])
  {
    seq(|items|, i requires 0 <= i < |items| => ValOf(items[i]))
  }

  /** The store holds the document. */
  ghost predicate Holds(store: Store, d: Doc) {
    match d
    case Leaf(_) => true
    case Obj(r, fields) =>
      && r in store && store[r] == Fields(FieldVals(fields))
      && forall k :: k in fields ==> Holds(store, fields[k])
    case Arr(r, items) =>
      && r in store && store[r] == Items(ItemVals(items))
      && forall i :: 0 <= i < |items| ==> Holds(store, items[i])
  }

  ghost predicate Agree(a: Store, b: Store, refs: set<Ref>) {
    forall r :: r in refs && r in a ==> r in b && a[r] == b[r]
  }

  /** Nothing outside `refs` is written, and nothing appears or goes. */
  ghost predicate OnlyWithin(a: Store, b: Store, refs: set<Ref>) {
    a.Keys == b.Keys && forall r :: r in a && r !in refs ==> b[r] == a[r]
  }

  /** A document is held as long as its own things are as they were. */
  lemma {:induction false} Framed(a: Store, b: Store, d: Doc)
    requires Holds(a, d) && Agree(a, b, Refs(d))
    ensures Holds(b, d)
    decreases d
  {
    match d
    case Leaf(_) =>
    case Obj(r, fields) =>
      forall k | k in fields ensures Holds(b, fields[k]) {
        FieldRefs(d, k);
        Framed(a, b, fields[k]);
      }
    case Arr(r, items) =>
      forall i | 0 <= i < |items| ensures Holds(b, items[i]) {
        ItemRefs(d, i);
        Framed(a, b, items[i]);
      }
  }

  lemma FieldRefs(d: Doc, k: string)
    requires d.Obj? && k in d.fields
    ensures Refs(d.fields[k]) <= Refs(d)
  {
  }

  lemma ItemRefs(d: Doc, i: nat)
    requires d.Arr? && i < |d.items|
    ensures Refs(d.items[i]) <= Refs(d)
  {
  }

  lemma FramedOutside(a: Store, b: Store, d: Doc, refs: set<Ref>)
    requires Holds(a, d) && OnlyWithin(a, b, refs) && refs !! Refs(d)
    ensures Holds(b, d)
  {
    Framed(a, b, d);
  }

  // ----- keys of rows

  function KeyText(d: Doc): Option<string> {
    match d
    case Leaf(Text(t)) => Some(t)
    case Leaf(Number(t)) => Some(t)
    case _ => None
  }

  /** A row's key, when it is an object whose key field is text or a number. */
  function RowKey(d: Doc, key: string): Option<string> {
    if d.Obj? && key in d.fields then KeyText(d.fields[key]) else None
  }

  /** Each row's key, when every row has one and no two share it. */
  function KeysOf(rows: seq<Doc>, key: string): Option<seq<string>> {
    if rows == [] then Some([])
    else
      match KeysOf(rows[..|rows| - 1], key)
      case None => None
      case Some(out) =>
        match RowKey(rows[|rows| - 1], key)
        case None => None
        case Some(t) => if t in out then None else Some(out + [t])
  }

  ghost predicate Keyed(rows: seq<Doc>, key: string) {
    && (forall i :: 0 <= i < |rows| ==> RowKey(rows[i], key).Some?)
    && (forall i, j :: 0 <= i < j < |rows| ==> RowKey(rows[i], key) != RowKey(rows[j], key))
  }

  lemma {:induction false} KeysOfKeyed(rows: seq<Doc>, key: string)
    ensures KeysOf(rows, key).Some? <==> Keyed(rows, key)
    ensures KeysOf(rows, key).Some? ==> |KeysOf(rows, key).value| == |rows|
                                        && forall i :: 0 <= i < |rows| ==>
                                              RowKey(rows[i], key) == Some(KeysOf(rows, key).value[i])
  {
    if rows != [] {
      var n := |rows| - 1;
      KeysOfKeyed(rows[..n], key);
      if KeysOf(rows, key).None? && KeysOf(rows[..n], key).Some? && RowKey(rows[n], key).Some? {
        var out := KeysOf(rows[..n], key).value;
        var i :| 0 <= i < |out| && out[i] == RowKey(rows[n], key).value;
        assert RowKey(rows[i], key) == RowKey(rows[n], key);
      }
    }
  }

  /** The first row of the key. */
  function Find(rows: seq<Doc>, key: string, id: string): (found: Option<nat>)
    ensures found.Some? ==> found.value < |rows| && RowKey(rows[found.value], key) == Some(id)
                            && forall i :: 0 <= i < found.value ==> RowKey(rows[i], key) != Some(id)
    ensures found.None? ==> forall i :: 0 <= i < |rows| ==> RowKey(rows[i], key) != Some(id)
  {
    FindFrom(rows, key, id, 0)
  }

  function FindFrom(rows: seq<Doc>, key: string, id: string, n: nat): (found: Option<nat>)
    requires n <= |rows|
    ensures found.Some? ==> n <= found.value < |rows| && RowKey(rows[found.value], key) == Some(id)
                            && forall i :: n <= i < found.value ==> RowKey(rows[i], key) != Some(id)
    ensures found.None? ==> forall i :: n <= i < |rows| ==> RowKey(rows[i], key) != Some(id)
    decreases |rows| - n
  {
    if n == |rows| then None
    else if RowKey(rows[n], key) == Some(id) then Some(n)
    else FindFrom(rows, key, id, n + 1)
  }

  // ----- documents that say the same

  lemma SameFields(t: Doc, s: Doc)
    requires t.Obj? && s.Obj? && Says(t) == Says(s)
    ensures t.fields.Keys == s.fields.Keys && forall k :: k in s.fields ==> Says(t.fields[k]) == Says(s.fields[k])
  {
    assert Says(t).fields.Keys == t.fields.Keys && Says(s).fields.Keys == s.fields.Keys;
    forall k | k in s.fields ensures Says(t.fields[k]) == Says(s.fields[k]) {
      assert Says(t).fields[k] == Says(s).fields[k];
    }
  }

  lemma SameItems(t: Doc, s: Doc)
    requires t.Arr? && s.Arr? && Says(t) == Says(s)
    ensures |t.items| == |s.items| && forall i :: 0 <= i < |s.items| ==> Says(t.items[i]) == Says(s.items[i])
  {
    assert |Says(t).items| == |Says(s).items|;
    forall i | 0 <= i < |s.items| ensures Says(t.items[i]) == Says(s.items[i]) {
      assert Says(t).items[i] == Says(s).items[i];
    }
  }

  lemma SameKey(a: Doc, b: Doc, key: string)
    requires Says(a) == Says(b)
    ensures RowKey(a, key) == RowKey(b, key) && a.Obj? == b.Obj?
  {
    if a.Obj? {
      SameFields(a, b);
    }
  }

  // ----- the table of row keys

  /** Where lists are, step by step with `*` for a row, and the field that tells their rows apart. */
  type Keys = seq<(seq<string>, string)>

  predicate Matches(pattern: seq<string>, path: seq<string>) {
    |pattern| == |path| && forall i :: 0 <= i < |path| ==> pattern[i] == "*" || pattern[i] == path[i]
  }

  /** The first entry whose pattern is the path's. */
  function KeyAt(keys: Keys, path: seq<string>): Option<string> {
    if keys == [] then None
    else if Matches(keys[0].0, path) then Some(keys[0].1)
    else KeyAt(keys[1..], path)
  }

  // ----- paths

  /** One step into a document: to a field of an object, or to the row of a list that has the key. */
  datatype Step = To(name: string) | Row(key: string, id: string) {
    /** How the table of row keys writes it. */
    function Name(): string {
      if To? then name else "*"
    }
  }

  function Names(p: seq<Step>): seq<string> {
    if p == [] then [] else [p[0].Name()] + Names(p[1..])
  }

  function Go(d: Doc, s: Step): Option<Doc> {
    match s
    case To(name) => d.Get(name)
    case Row(key, id) =>
      if d.Arr? && Find(d.items, key, id).Some? then Some(d.items[Find(d.items, key, id).value]) else None
  }

  function Walk(d: Doc, p: seq<Step>): Option<Doc> {
    if p == [] then Some(d)
    else match Go(d, p[0]) case Some(next) => Walk(next, p[1..]) case None => None
  }
}
