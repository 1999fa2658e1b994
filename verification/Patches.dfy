/** The server's edits at paths into a document: each changes one thing, where its path leads, and
    what that makes of every other path. */
module Patches {
  import opened Trading
  import opened Documents

  /** An edit, its new values as they are held (`V` a value) or as they read (`V` a document). */
  datatype Op<V> =
    | Set(path: seq<Step>, v: V)
    | Del(path: seq<Step>)
    | Rows(path: seq<Step>, key: string, order: seq<string>, added: map<string, V>)

  /** What an edit does to the thing its path leads to. */
  datatype Change =
    | PutField(name: string, v: Doc)
    | PutRow(key: string, id: string, v: Doc)
    | DropField(name: string)
    | Order(key: string, order: seq<string>, added: map<string, Doc>)
    | Nothing

  function Parent(op: Op<Doc>): seq<Step> {
    if op.Rows? || op.path == [] then op.path else op.path[..|op.path| - 1]
  }

  function ChangeOf(op: Op<Doc>): Change {
    match op
    case Rows(_, key, order, added) => Order(key, order, added)
    case Set(path, v) =>
      if path == [] then Nothing
      else (match path[|path| - 1] case To(name) => PutField(name, v) case Row(key, id) => PutRow(key, id, v))
    case Del(path) =>
      if path == [] then Nothing
      else (match path[|path| - 1] case To(name) => DropField(name) case Row(_, _) => Nothing)
  }

  /** A row's key to a `rows` edit: one without is filed under the empty text. */
  function OrderKey(d: Doc, key: string): string {
    match RowKey(d, key) case Some(t) => t case None => ""
  }

  /** The last row filed under a key. */
  function LastAt(rows: seq<Doc>, key: string, id: string): (at: Option<nat>)
    ensures at.Some? ==>
              at.value < |rows| && OrderKey(rows[at.value], key) == id
              && forall i :: at.value < i < |rows| ==> OrderKey(rows[i], key) != id
    ensures at.None? ==> forall i :: 0 <= i < |rows| ==> OrderKey(rows[i], key) != id
  {
    if rows == [] then None
    else if OrderKey(rows[|rows| - 1], key) == id then Some(|rows| - 1)
    else LastAt(rows[..|rows| - 1], key, id)
  }

  /** The rows named, in the order named: the one held, else the one added, else none. */
  function Ordered(rows: seq<Doc>, key: string, order: seq<string>, added: map<string, Doc>): seq<Doc> {
    if order == [] then []
    else
      var id := order[|order| - 1];
      Ordered(rows, key, order[..|order| - 1], added)
      + match LastAt(rows, key, id)
        case Some(i) => [rows[i]]
        case None => if id in added then [added[id]] else []
  }

  function Make(d: Doc, c: Change): Doc {
    match c
    case PutField(name, v) => if d.Obj? then Obj(d.ref, d.fields[name := v]) else d
    case DropField(name) => if d.Obj? then Obj(d.ref, d.fields - {name}) else d
    case PutRow(key, id, v) =>
      if d.Arr? && Find(d.items, key, id).Some? then Arr(d.ref, d.items[Find(d.items, key, id).value := v]) else d
    case Order(key, order, added) => if d.Arr? then Arr(d.ref, Ordered(d.items, key, order, added)) else d
    case Nothing => d
  }

  function Edit(d: Doc, p: seq<Step>, c: Change): Doc {
    if p == [] then Make(d, c)
    else
      match p[0]
      case To(name) => if d.Obj? && name in d.fields then Obj(d.ref, d.fields[name := Edit(d.fields[name], p[1..], c)])
                       else d
      case Row(key, id) =>
        if d.Arr? && Find(d.items, key, id).Some? then
          Arr(d.ref, d.items[Find(d.items, key, id).value := Edit(d.items[Find(d.items, key, id).value], p[1..], c)])
        else d
  }

  function Applied(d: Doc, op: Op<Doc>): Doc {
    Edit(d, Parent(op), ChangeOf(op))
  }

  function AppliedAll(d: Doc, ops: seq<Op<Doc>>): Doc {
    if ops == [] then d else Applied(AppliedAll(d, ops[..|ops| - 1]), ops[|ops| - 1])
  }

  // ----- what is read afterwards

  /** The change leaves the key of the row it is made in, or of the row it puts, as the path names it. */
  predicate KeepsKey(p: seq<Step>, c: Change) {
    match c
    case PutField(name, v) => p != [] && p[|p| - 1].Row? && p[|p| - 1].key == name ==> KeyText(v) == Some(p[|p| - 1].id)
    case DropField(name) => !(p != [] && p[|p| - 1].Row? && p[|p| - 1].key == name)
    case PutRow(key, id, v) => RowKey(v, key) == Some(id)
    case _ => true
  }

  /** A step the change at a thing does not touch. */
  predicate Untouched(c: Change, s: Step) {
    match c
    case PutField(name, _) => s != To(name)
    case DropField(name) => s != To(name)
    case PutRow(key, id, _) => s.To? || (s.key == key && s.id != id)
    case Order(_, _, _) => s.To?
    case Nothing => true
  }

  /** `q` leaves the path of the change before it comes to what is changed. Two rows of one list are
      told apart by one key field. */
  predicate Parts(p: seq<Step>, c: Change, q: seq<Step>) {
    q != []
    && if p == [] then Untouched(c, q[0])
       else if p[0] == q[0] then Parts(p[1..], c, q[1..])
       else p[0].Row? && q[0].Row? ==> p[0].key == q[0].key
  }

  /** The key of a row an edit goes through stays, unless the edit is of that very field. */
  lemma {:induction false} EditedKey(d: Doc, p: seq<Step>, c: Change, key: string)
    requires d.Obj? && RowKey(d, key).Some?
    ensures Edit(d, p, c).Obj?
    ensures RowKey(Edit(d, p, c), key)
            == if p == [] && c.PutField? && c.name == key then KeyText(c.v)
               else if p == [] && c.DropField? && c.name == key then None
               else RowKey(d, key)
  {
    if p != [] && p[0] == To(key) {
      assert Edit(d.fields[key], p[1..], c) == d.fields[key];
    }
  }

  lemma FoundAgain(items: seq<Doc>, key: string, id: string, i: nat, v: Doc)
    requires Find(items, key, id) == Some(i)
    ensures RowKey(v, key) == Some(id) ==> Find(items[i := v], key, id) == Some(i)
    ensures RowKey(v, key) == Some(id) ==> forall other :: other != id ==>
              Find(items[i := v], key, other) == Find(items, key, other)
    ensures RowKey(v, key) != Some(id) && Find(items[i := v], key, id).Some? ==>
              var j := Find(items[i := v], key, id).value; j != i && RowKey(items[j], key) == Some(id)
  {
    if RowKey(v, key) == Some(id) {
      assert items[i := v][i] == v;
      forall other | other != id ensures Find(items[i := v], key, other) == Find(items, key, other) {
        SameFinds(items, items[i := v], key, other);
      }
    }
  }

  lemma SameFinds(a: seq<Doc>, b: seq<Doc>, key: string, id: string)
    requires |a| == |b| && forall i :: 0 <= i < |a| ==>
               (RowKey(a[i], key) == Some(id) <==> RowKey(b[i], key) == Some(id))
    ensures Find(a, key, id) == Find(b, key, id)
  {
  }

  /** What a `set` writes: the step it ends in, and its value. */
  function Put(last: Step, v: Doc): Change {
    match last
    case To(name) => PutField(name, v)
    case Row(key, id) => PutRow(key, id, v)
  }

  /** There is something to set there: an object, or a list that has the row. */
  predicate Sits(d: Doc, last: Step) {
    match last
    case To(_) => d.Obj?
    case Row(key, id) => d.Arr? && Find(d.items, key, id).Some?
  }

  /** A set is read back at its path if and only if it keeps the key the path names its row by. */
  lemma {:induction false} ReadBackIff(d: Doc, p: seq<Step>, last: Step, v: Doc)
    requires Walk(d, p).Some? && Sits(Walk(d, p).value, last)
    ensures Walk(Edit(d, p, Put(last, v)), p + [last]) == Some(v) <==> KeepsKey(p, Put(last, v))
    decreases |p|
  {
    var c := Put(last, v);
    if p == [] {
      assert ([last])[1..] == [];
      if last.Row? {
        FoundAgain(d.items, last.key, last.id, Find(d.items, last.key, last.id).value, v);
      }
    } else {
      assert (p + [last])[1..] == p[1..] + [last];
      ReadBackIff(Go(d, p[0]).value, p[1..], last, v);
      if p[0].Row? {
        RowReadBack(d, p, last, v);
      }
    }
  }

  lemma RowReadBack(d: Doc, p: seq<Step>, last: Step, v: Doc)
    requires p != [] && p[0].Row? && Go(d, p[0]).Some? && Walk(d, p).Some? && Sits(Walk(d, p).value, last)
    requires Walk(Edit(Go(d, p[0]).value, p[1..], Put(last, v)), p[1..] + [last]) == Some(v)
             <==> KeepsKey(p[1..], Put(last, v))
    ensures Walk(Edit(d, p, Put(last, v)), p + [last]) == Some(v) <==> KeepsKey(p, Put(last, v))
  {
    var c, key, id := Put(last, v), p[0].key, p[0].id;
    var i := Find(d.items, key, id).value;
    var row := Edit(d.items[i], p[1..], c);
    assert (p + [last])[1..] == p[1..] + [last];
    EditedKey(d.items[i], p[1..], c, key);
    FoundAgain(d.items, key, id, i, row);
    if RowKey(row, key) != Some(id) {
      assert p[1..] == [] && last == To(key);
      assert p[1..] + [last] == [last] && [last][1..] == [];
      var e := Edit(d, p, c);
      assert !KeepsKey(p, c);
      if Go(e, p[0]).Some? {
        var x := Go(e, p[0]).value;
        assert RowKey(x, key) == Some(id);
        assert Walk(x, [last]) == x.Get(key);
      }
    }
  }

  /** A row edited with its key kept is found where it was, and so is every other. */
  lemma RowEdited(d: Doc, s: Step, p: seq<Step>, c: Change)
    requires s.Row? && Go(d, s).Some?
    requires RowKey(Edit(Go(d, s).value, p, c), s.key) == Some(s.id)
    ensures var e := Edit(d, [s] + p, c);
            && Go(e, s) == Some(Edit(Go(d, s).value, p, c))
            && (forall other: Step :: other != s && (other.Row? ==> other.key == s.key) ==>
                  Go(e, other) == Go(d, other))
  {
    assert ([s] + p)[1..] == p;
    FoundAgain(d.items, s.key, s.id, Find(d.items, s.key, s.id).value, Edit(Go(d, s).value, p, c));
  }

  lemma FieldEdited(d: Doc, s: Step, p: seq<Step>, c: Change)
    requires s.To? && Go(d, s).Some?
    ensures var e := Edit(d, [s] + p, c);
            && Go(e, s) == Some(Edit(Go(d, s).value, p, c))
            && (forall other: Step :: other != s ==> Go(e, other) == Go(d, other))
  {
    assert ([s] + p)[1..] == p;
  }

  lemma StepEdited(d: Doc, p: seq<Step>, c: Change)
    requires p != [] && Go(d, p[0]).Some? && KeepsKey(p, c)
    ensures KeepsKey(p[1..], c) && Go(Edit(d, p, c), p[0]) == Some(Edit(Go(d, p[0]).value, p[1..], c))
    ensures forall other: Step :: other != p[0] && (p[0].Row? && other.Row? ==> other.key == p[0].key) ==>
              Go(Edit(d, p, c), other) == Go(d, other)
  {
    hide Edit;
    assert [p[0]] + p[1..] == p;
    if p[0].Row? {
      EditedKey(Go(d, p[0]).value, p[1..], c, p[0].key);
      RowEdited(d, p[0], p[1..], c);
    } else {
      FieldEdited(d, p[0], p[1..], c);
    }
  }

  /** And changes nothing on any path that parts from it. */
  lemma {:induction false} Elsewhere(d: Doc, p: seq<Step>, c: Change, q: seq<Step>)
    requires KeepsKey(p, c) && Parts(p, c, q)
    ensures Walk(Edit(d, p, c), q) == Walk(d, q)
    decreases |p|
  {
    hide Edit;
    if p == [] {
      MadeElsewhere(d, c, q[0]);
    } else if Go(d, p[0]).Some? {
      StepEdited(d, p, c);
      if p[0] == q[0] {
        Elsewhere(Go(d, p[0]).value, p[1..], c, q[1..]);
      }
    } else {
      NowhereToGo(d, p, c);
    }
  }

  lemma NowhereToGo(d: Doc, p: seq<Step>, c: Change)
    requires p != [] && Go(d, p[0]).None?
    ensures Edit(d, p, c) == d
  {
  }

  lemma MadeElsewhere(d: Doc, c: Change, s: Step)
    requires KeepsKey([], c) && Untouched(c, s)
    ensures Go(Edit(d, [], c), s) == Go(d, s)
  {
    if c.PutRow? && d.Arr? && Find(d.items, c.key, c.id).Some? {
      FoundAgain(d.items, c.key, c.id, Find(d.items, c.key, c.id).value, c.v);
    }
  }

  /** On the way there, everything is the thing it was, written into: what is at a point of the path
      is what was there with the rest of the edit made in it. */
  lemma {:induction false} OnTheWay(d: Doc, p: seq<Step>, c: Change, q: seq<Step>)
    requires KeepsKey(p, c) && q <= p && Walk(d, q).Some?
    ensures Walk(Edit(d, p, c), q) == Some(Edit(Walk(d, q).value, p[|q|..], c))
    ensures var x := Walk(d, q).value; ValOf(Edit(x, p[|q|..], c)) == ValOf(x)
    decreases |p|
  {
    hide Edit;
    SameThing(Walk(d, q).value, p[|q|..], c);
    if q != [] {
      StepEdited(d, p, c);
      OnTheWay(Go(d, p[0]).value, p[1..], c, q[1..]);
      assert p[1..][|q| - 1..] == p[|q|..];
    } else {
      assert p[|q|..] == p;
    }
  }

  lemma SameThing(d: Doc, p: seq<Step>, c: Change)
    ensures ValOf(Edit(d, p, c)) == ValOf(d)
  {
  }

  // ----- a `rows` edit

  predicate Distinct(order: seq<string>) {
    forall i, j :: 0 <= i < j < |order| ==> order[i] != order[j]
  }

  /** Each row named is held, or added under its own key. */
  ghost predicate Known(rows: seq<Doc>, key: string, order: seq<string>, added: map<string, Doc>) {
    forall i :: 0 <= i < |order| ==>
      || (exists j :: 0 <= j < |rows| && RowKey(rows[j], key) == Some(order[i]))
      || (order[i] in added && RowKey(added[order[i]], key) == Some(order[i]))
  }

  /** The list then has exactly the keys named, in that order, and each row that was held is the same
      row with everything in it. */
  ghost predicate InOrder(rows: seq<Doc>, key: string, order: seq<string>, next: seq<Doc>) {
    && |next| == |order|
    && forall i :: 0 <= i < |order| ==> Named(rows, key, order[i], next[i])
  }

  ghost predicate Named(rows: seq<Doc>, key: string, id: string, x: Doc) {
    RowKey(x, key) == Some(id) && forall j :: 0 <= j < |rows| && RowKey(rows[j], key) == Some(id) ==> x == rows[j]
  }

  lemma {:induction false} OrderIsKept(rows: seq<Doc>, key: string, order: seq<string>, added: map<string, Doc>)
    requires Known(rows, key, order, added) && Keyed(rows, key)
    ensures InOrder(rows, key, order, Ordered(rows, key, order, added))
    ensures Distinct(order) ==> KeysOf(Ordered(rows, key, order, added), key) == Some(order)
  {
    hide Named, Keyed, Known, KeysOf, Distinct;
    var next := Ordered(rows, key, order, added);
    if order != [] {
      FewerKnown(rows, key, order, added);
      OrderIsKept(rows, key, order[..|order| - 1], added);
      OneNamed(rows, key, order, added);
      OneMoreInOrder(rows, key, order, next);
    }
    InOrderKeys(rows, key, order, next);
  }

  lemma FewerKnown(rows: seq<Doc>, key: string, order: seq<string>, added: map<string, Doc>)
    requires order != [] && Known(rows, key, order, added)
    ensures Known(rows, key, order[..|order| - 1], added)
  {
    assert forall i :: 0 <= i < |order| - 1 ==> order[..|order| - 1][i] == order[i];
  }

  lemma OneMoreInOrder(rows: seq<Doc>, key: string, order: seq<string>, next: seq<Doc>)
    requires order != [] && |next| == |order| && InOrder(rows, key, order[..|order| - 1], next[..|order| - 1])
    requires Named(rows, key, order[|order| - 1], next[|order| - 1])
    ensures InOrder(rows, key, order, next)
  {
    hide Named;
    forall i | 0 <= i < |order| ensures Named(rows, key, order[i], next[i]) {
      if i < |order| - 1 {
        assert Named(rows, key, order[..|order| - 1][i], next[..|order| - 1][i]);
      }
    }
  }

  lemma InOrderKeys(rows: seq<Doc>, key: string, order: seq<string>, next: seq<Doc>)
    requires InOrder(rows, key, order, next)
    ensures Distinct(order) ==> KeysOf(next, key) == Some(order)
  {
    if Distinct(order) {
      assert Keyed(next, key) by {
        forall i, j | 0 <= i < j < |next| ensures RowKey(next[i], key) != RowKey(next[j], key) {
          assert Named(rows, key, order[i], next[i]) && Named(rows, key, order[j], next[j]);
        }
        assert forall i :: 0 <= i < |next| ==> Named(rows, key, order[i], next[i]);
      }
      KeysOfKeyed(next, key);
      forall i | 0 <= i < |order| ensures KeysOf(next, key).value[i] == order[i] {
        assert Named(rows, key, order[i], next[i]);
      }
      assert KeysOf(next, key).value == order;
    }
  }

  lemma OneNamed(rows: seq<Doc>, key: string, order: seq<string>, added: map<string, Doc>)
    requires order != [] && Known(rows, key, order, added) && Keyed(rows, key)
    ensures var id, was := order[|order| - 1], Ordered(rows, key, order[..|order| - 1], added);
            var next := Ordered(rows, key, order, added);
            |next| == |was| + 1 && next[..|was|] == was && Named(rows, key, id, next[|was|])
  {
    var id, was := order[|order| - 1], Ordered(rows, key, order[..|order| - 1], added);
    match LastAt(rows, key, id)
    case Some(i) =>
      assert RowKey(rows[i], key) == Some(id);
      assert Ordered(rows, key, order, added) == was + [rows[i]];
    case None =>
      forall j | 0 <= j < |rows| ensures RowKey(rows[j], key) != Some(id) {
        assert OrderKey(rows[j], key) != id;
      }
      assert Ordered(rows, key, order, added) == was + [added[id]];
  }

  // ----- an edit reads only what a document says

  /** Documents that say the same say the same after the same edit, whichever things they are of. */
  lemma {:induction false} EditSays(d: Doc, e: Doc, p: seq<Step>, c: Change)
    requires Says(d) == Says(e)
    ensures Says(Edit(d, p, c)) == Says(Edit(e, p, c))
    decreases |p|
  {
    if p == [] {
      MakeSays(d, e, c);
    } else {
      GoSays(d, e, p[0]);
      if Go(d, p[0]).Some? {
        EditSays(Go(d, p[0]).value, Go(e, p[0]).value, p[1..], c);
        if p[0].To? {
          PutSays(d, e, p[0].name, Edit(Go(d, p[0]).value, p[1..], c), Edit(Go(e, p[0]).value, p[1..], c));
        } else {
          FindSays(d, e, p[0].key, p[0].id);
          PutItemSays(d, e, Find(d.items, p[0].key, p[0].id).value, Edit(Go(d, p[0]).value, p[1..], c),
              Edit(Go(e, p[0]).value, p[1..], c));
        }
      } else {
        NowhereToGo(d, p, c);
        NowhereToGo(e, p, c);
      }
    }
  }

  lemma KindSays(d: Doc, e: Doc)
    requires Says(d) == Says(e)
    ensures d.Obj? == e.Obj? && d.Arr? == e.Arr?
  {
  }

  lemma GoSays(d: Doc, e: Doc, s: Step)
    requires Says(d) == Says(e)
    ensures d.Obj? == e.Obj? && d.Arr? == e.Arr? && Go(d, s).Some? == Go(e, s).Some?
    ensures Go(d, s).Some? ==> Says(Go(d, s).value) == Says(Go(e, s).value)
  {
    KindSays(d, e);
    if d.Obj? {
      SameFields(d, e);
    }
    if d.Arr? && s.Row? {
      SameItems(d, e);
      FindSays(d, e, s.key, s.id);
    }
  }

  lemma FindSays(d: Doc, e: Doc, key: string, id: string)
    requires Says(d) == Says(e) && d.Arr? && e.Arr?
    ensures Find(d.items, key, id) == Find(e.items, key, id)
  {
    SameItems(d, e);
    forall i | 0 <= i < |d.items| ensures RowKey(d.items[i], key) == RowKey(e.items[i], key) {
      SameKey(d.items[i], e.items[i], key);
    }
    SameFinds(d.items, e.items, key, id);
  }

  lemma PutSays(d: Doc, e: Doc, name: string, x: Doc, y: Doc)
    requires Says(d) == Says(e) && d.Obj? && e.Obj? && Says(x) == Says(y)
    ensures Says(Obj(d.ref, d.fields[name := x])) == Says(Obj(e.ref, e.fields[name := y]))
  {
    SameFields(d, e);
    var a, b := d.fields[name := x], e.fields[name := y];
    assert (map k | k in a :: Says(a[k])) == (map k | k in b :: Says(b[k]));
  }

  lemma PutItemSays(d: Doc, e: Doc, i: nat, x: Doc, y: Doc)
    requires Says(d) == Says(e) && d.Arr? && e.Arr? && i < |d.items| && i < |e.items| && Says(x) == Says(y)
    ensures Says(Arr(d.ref, d.items[i := x])) == Says(Arr(e.ref, e.items[i := y]))
  {
    SameItems(d, e);
  }

  lemma MakeSays(d: Doc, e: Doc, c: Change)
    requires Says(d) == Says(e)
    ensures Says(Make(d, c)) == Says(Make(e, c))
  {
    KindSays(d, e);
    match c
    case PutField(name, v) => if d.Obj? { PutSays(d, e, name, v, v); }
    case DropField(name) => if d.Obj? { DropSays(d, e, name); }
    case PutRow(key, id, v) =>
      if d.Arr? {
        FindSays(d, e, key, id);
        if Find(d.items, key, id).Some? { PutItemSays(d, e, Find(d.items, key, id).value, v, v); }
      }
    case Order(key, order, added) => if d.Arr? { OrderSays(d, e, key, order, added); }
    case Nothing =>
  }

  lemma DropSays(d: Doc, e: Doc, name: string)
    requires Says(d) == Says(e) && d.Obj? && e.Obj?
    ensures Says(Obj(d.ref, d.fields - {name})) == Says(Obj(e.ref, e.fields - {name}))
  {
    SameFields(d, e);
    var a, b := d.fields - {name}, e.fields - {name};
    assert (map k | k in a :: Says(a[k])) == (map k | k in b :: Says(b[k]));
  }

  lemma OrderSays(d: Doc, e: Doc, key: string, order: seq<string>, added: map<string, Doc>)
    requires Says(d) == Says(e) && d.Arr? && e.Arr?
    ensures Says(Arr(d.ref, Ordered(d.items, key, order, added))) == Says(Arr(e.ref,
        Ordered(e.items, key, order, added)))
  {
    SameItems(d, e);
    forall i | 0 <= i < |d.items| ensures OrderKey(d.items[i], key) == OrderKey(e.items[i], key) {
      SameKey(d.items[i], e.items[i], key);
    }
    SameOrder(d.items, e.items, key, order, added);
  }

  lemma {:induction false} SameOrder(a: seq<Doc>, b: seq<Doc>, key: string, order: seq<string>, added: map<string, Doc>)
    requires |a| == |b| && forall i :: 0 <= i < |a| ==>
               Says(a[i]) == Says(b[i]) && OrderKey(a[i], key) == OrderKey(b[i], key)
    ensures var x, y := Ordered(a, key, order, added), Ordered(b, key, order, added);
            |x| == |y| && forall i :: 0 <= i < |x| ==> Says(x[i]) == Says(y[i])
  {
    hide Says, OrderKey;
    if order != [] {
      SameOrder(a, b, key, order[..|order| - 1], added);
      SameLast(a, b, key, order[|order| - 1]);
    }
  }

  lemma SameLast(a: seq<Doc>, b: seq<Doc>, key: string, id: string)
    requires |a| == |b| && forall i :: 0 <= i < |a| ==> OrderKey(a[i], key) == OrderKey(b[i], key)
    ensures LastAt(a, key, id) == LastAt(b, key, id)
  {
    hide OrderKey;
    var x, y := LastAt(a, key, id), LastAt(b, key, id);
    assert x.Some? && y.Some? ==> x.value == y.value;
  }

  // ----- each thing stays in one place

  /** The new documents of a change. */
  ghost function News(c: Change): set<Doc> {
    match c
    case PutField(_, v) => {v}
    case PutRow(_, _, v) => {v}
    case Order(_, _, added) => set id | id in added :: added[id]
    case _ => {}
  }

  ghost function NewRefs(c: Change): set<Ref> {
    set v, x | v in News(c) && x in Refs(v) :: x
  }

  /** What a change brings is in one place each, and new to the document. A row is ordered once. */
  ghost predicate Brings(c: Change) {
    && (forall v :: v in News(c) ==> Tree(v))
    && (c.Order? ==>
          && Distinct(c.order)
          && forall a, b :: a in c.added && b in c.added && a != b ==> Refs(c.added[a]) !! Refs(c.added[b]))
  }

  lemma NewIn(c: Change, v: Doc)
    requires v in News(c)
    ensures Refs(v) <= NewRefs(c)
  {
  }

  lemma {:induction false} EditTree(d: Doc, p: seq<Step>, c: Change)
    requires Tree(d) && Brings(c) && NewRefs(c) !! Refs(d)
    ensures Tree(Edit(d, p, c)) && Refs(Edit(d, p, c)) <= Refs(d) + NewRefs(c)
    decreases |p|
  {
    if p == [] {
      MakeTree(d, c);
    } else if Go(d, p[0]).Some? {
      var x := Go(d, p[0]).value;
      if p[0].To? {
        FieldRefs(d, p[0].name);
        EditTree(x, p[1..], c);
        FieldPut(d, p[0].name, Edit(x, p[1..], c), NewRefs(c));
      } else {
        var i := Find(d.items, p[0].key, p[0].id).value;
        ItemRefs(d, i);
        EditTree(x, p[1..], c);
        ItemPut(d, i, Edit(x, p[1..], c), NewRefs(c));
      }
    } else {
      NowhereToGo(d, p, c);
    }
  }

  lemma FieldPut(d: Doc, name: string, v: Doc, refs: set<Ref>)
    requires d.Obj? && Tree(d) && Tree(v) && refs !! Refs(d)
    requires Refs(v) <= refs + (if name in d.fields then Refs(d.fields[name]) else {})
    ensures var e := Obj(d.ref, d.fields[name := v]); Tree(e) && Refs(e) <= Refs(d) + refs
  {
    var e := Obj(d.ref, d.fields[name := v]);
    assert d.ref in Refs(d);
    forall k | k in e.fields
      ensures Tree(e.fields[k]) && e.ref !in Refs(e.fields[k]) && Refs(e.fields[k]) <= Refs(d) + refs
    {
      if k in d.fields { FieldRefs(d, k); }
    }
    forall k, l | k in e.fields && l in e.fields && k != l ensures Refs(e.fields[k]) !! Refs(e.fields[l]) {
      if k in d.fields { FieldRefs(d, k); }
      if l in d.fields { FieldRefs(d, l); }
    }
  }

  lemma ItemPut(d: Doc, i: nat, v: Doc, refs: set<Ref>)
    requires d.Arr? && i < |d.items| && Tree(d) && Tree(v) && refs !! Refs(d)
    requires Refs(v) <= refs + Refs(d.items[i])
    ensures var e := Arr(d.ref, d.items[i := v]); Tree(e) && Refs(e) <= Refs(d) + refs
  {
    var e := Arr(d.ref, d.items[i := v]);
    assert d.ref in Refs(d);
    forall j | 0 <= j < |e.items|
      ensures Tree(e.items[j]) && e.ref !in Refs(e.items[j]) && Refs(e.items[j]) <= Refs(d) + refs
    {
      ItemRefs(d, j);
    }
    forall j, k | 0 <= j < k < |e.items| ensures Refs(e.items[j]) !! Refs(e.items[k]) {
      ItemRefs(d, j); ItemRefs(d, k);
    }
  }

  lemma MakeTree(d: Doc, c: Change)
    requires Tree(d) && Brings(c) && NewRefs(c) !! Refs(d)
    ensures Tree(Make(d, c)) && Refs(Make(d, c)) <= Refs(d) + NewRefs(c)
  {
    match c
    case PutField(name, v) => NewIn(c, v); if d.Obj? { FieldPut(d, name, v, NewRefs(c)); }
    case PutRow(key, id, v) =>
      NewIn(c, v);
      if d.Arr? && Find(d.items, key, id).Some? { ItemPut(d, Find(d.items, key, id).value, v, NewRefs(c)); }
    case DropField(name) =>
    case Order(key, order, added) => if d.Arr? { OrderTree(d, key, order, added); }
    case Nothing =>
  }

  /** Where a row of an ordered list comes from. */
  ghost predicate From(d: Doc, key: string, id: string, added: map<string, Doc>, x: Doc)
    requires d.Arr?
  {
    match LastAt(d.items, key, id)
    case Some(i) => x == d.items[i]
    case None => id in added && x == added[id]
  }

  lemma {:induction false} OrderFrom(d: Doc, key: string, order: seq<string>, added: map<string,
      Doc>) returns (ids: seq<string>)
    requires d.Arr? && Distinct(order)
    ensures var next := Ordered(d.items, key, order, added);
            && |ids| == |next| && Distinct(ids)
            && (forall i :: 0 <= i < |ids| ==> ids[i] in order && From(d, key, ids[i], added, next[i]))
  {
    ids := [];
    if order != [] {
      var n := |order| - 1;
      ids := OrderFrom(d, key, order[..n], added);
      if LastAt(d.items, key, order[n]).Some? || order[n] in added {
        assert order[n] !in order[..n];
        ids := ids + [order[n]];
      }
    }
  }

  lemma OrderTree(d: Doc, key: string, order: seq<string>, added: map<string, Doc>)
    requires d.Arr? && Tree(d) && Brings(Order(key, order, added)) && NewRefs(Order(key, order, added)) !! Refs(d)
    ensures var c := Order(key, order, added); Tree(Make(d, c)) && Refs(Make(d, c)) <= Refs(d) + NewRefs(c)
  {
    hide Ordered;
    var c, next := Order(key, order, added), Ordered(d.items, key, order, added);
    var ids := OrderFrom(d, key, order, added);
    assert d.ref in Refs(d);
    forall i | 0 <= i < |next|
      ensures Tree(next[i]) && d.ref !in Refs(next[i]) && Refs(next[i]) <= Refs(d) + NewRefs(c)
    {
      FromOne(d, c, ids[i], next[i]);
    }
    forall i, j | 0 <= i < j < |next| ensures Refs(next[i]) !! Refs(next[j]) {
      FromTwo(d, c, ids[i], next[i], ids[j], next[j]);
    }
  }

  lemma FromOne(d: Doc, c: Change, id: string, x: Doc)
    requires d.Arr? && Tree(d) && c.Order? && Brings(c) && NewRefs(c) !! Refs(d) && From(d, c.key, id, c.added, x)
    ensures Tree(x) && d.ref !in Refs(x) && Refs(x) <= Refs(d) + NewRefs(c)
  {
    assert d.ref in Refs(d);
    match LastAt(d.items, c.key, id)
    case Some(i) => ItemRefs(d, i);
    case None => NewIn(c, x);
  }

  lemma FromTwo(d: Doc, c: Change, a: string, x: Doc, b: string, y: Doc)
    requires d.Arr? && Tree(d) && c.Order? && Brings(c) && NewRefs(c) !! Refs(d) && a != b
    requires From(d, c.key, a, c.added, x) && From(d, c.key, b, c.added, y)
    ensures Refs(x) !! Refs(y)
  {
    hide Tree, Refs, Brings, NewRefs, LastAt;
    var i, j := LastAt(d.items, c.key, a), LastAt(d.items, c.key, b);
    if i.Some? && j.Some? {
      HeldTwo(d, i.value, j.value);
    } else if i.Some? {
      HeldAndAdded(d, c, i.value, b);
    } else if j.Some? {
      HeldAndAdded(d, c, j.value, a);
    } else {
      AddedTwo(c, a, b);
    }
  }

  lemma HeldTwo(d: Doc, i: nat, j: nat)
    requires d.Arr? && Tree(d) && i < |d.items| && j < |d.items| && i != j
    ensures Refs(d.items[i]) !! Refs(d.items[j])
  {
    assert i < j || j < i;
  }

  lemma HeldAndAdded(d: Doc, c: Change, i: nat, id: string)
    requires d.Arr? && i < |d.items| && c.Order? && id in c.added && NewRefs(c) !! Refs(d)
    ensures Refs(d.items[i]) !! Refs(c.added[id])
  {
    hide NewRefs;
    ItemRefs(d, i);
    NewIn(c, c.added[id]);
  }

  lemma AddedTwo(c: Change, a: string, b: string)
    requires c.Order? && Brings(c) && a in c.added && b in c.added && a != b
    ensures Refs(c.added[a]) !! Refs(c.added[b])
  {
  }

  // ----- and only one thing is written

  ghost predicate NewsHeld(store: Store, c: Change) {
    forall v :: v in News(c) ==> Holds(store, v)
  }

  function NodeOf(d: Doc): Node
    requires !d.Leaf?
  {
    if d.Obj? then Fields(FieldVals(d.fields)) else Items(ItemVals(d.items))
  }

  /** The edit made in the store is the edit of the document: one thing is written, the one the path
      leads to. */
  lemma {:induction false} EditHolds(store: Store, next: Store, d: Doc, p: seq<Step>, c: Change)
    requires Holds(store, d) && Tree(d) && NewsHeld(store, c) && NewRefs(c) !! Refs(d)
    requires Walk(d, p).Some? && !Walk(d, p).value.Leaf?
    requires next == store[Walk(d, p).value.ref := NodeOf(Make(Walk(d, p).value, c))]
    ensures Holds(next, Edit(d, p, c)) && Walk(d, p).value.ref in Refs(d)
    ensures OnlyWithin(store, next, {Walk(d, p).value.ref})
    decreases |p|
  {
    if p == [] {
      MakeHolds(store, next, d, c);
    } else {
      var x, at := Go(d, p[0]).value, Walk(d, p).value.ref;
      SameThing(x, p[1..], c);
      if p[0].To? {
        InField(store, d, p[0].name);
        EditHolds(store, next, x, p[1..], c);
        FieldHolds(store, next, d, p[0].name, Edit(x, p[1..], c), at);
      } else {
        var i := Find(d.items, p[0].key, p[0].id).value;
        InItem(store, d, i);
        EditHolds(store, next, x, p[1..], c);
        ItemHolds(store, next, d, i, Edit(x, p[1..], c), at);
      }
    }
  }

  lemma InField(store: Store, d: Doc, name: string)
    requires d.Obj? && name in d.fields && Tree(d) && Holds(store, d)
    ensures Tree(d.fields[name]) && Holds(store, d.fields[name]) && Refs(d.fields[name]) <= Refs(d)
  {
  }

  lemma InItem(store: Store, d: Doc, i: nat)
    requires d.Arr? && i < |d.items| && Tree(d) && Holds(store, d)
    ensures Tree(d.items[i]) && Holds(store, d.items[i]) && Refs(d.items[i]) <= Refs(d)
  {
  }

  /** What is written lies within one field: the thing around it is as it was. */
  lemma FieldHolds(store: Store, next: Store, d: Doc, name: string, v: Doc, at: Ref)
    requires d.Obj? && name in d.fields && Tree(d) && Holds(store, d) && at in Refs(d.fields[name])
    requires OnlyWithin(store, next, {at})
    requires Holds(next, v) && ValOf(v) == ValOf(d.fields[name])
    ensures Holds(next, Obj(d.ref, d.fields[name := v]))
  {
    assert FieldVals(d.fields[name := v]) == FieldVals(d.fields);
    OtherFieldsHold(store, next, d, name, at);
  }

  lemma OtherFieldsHold(store: Store, next: Store, d: Doc, name: string, at: Ref)
    requires d.Obj? && name in d.fields && Tree(d) && Holds(store, d) && at in Refs(d.fields[name])
    requires OnlyWithin(store, next, {at})
    ensures at != d.ref && forall k :: k in d.fields && k != name ==> Holds(next, d.fields[k])
  {
    forall k | k in d.fields && k != name ensures Holds(next, d.fields[k]) {
      assert Refs(d.fields[k]) !! Refs(d.fields[name]);
      FramedOutside(store, next, d.fields[k], {at});
    }
  }

  lemma ItemHolds(store: Store, next: Store, d: Doc, i: nat, v: Doc, at: Ref)
    requires d.Arr? && i < |d.items| && Tree(d) && Holds(store, d) && at in Refs(d.items[i])
    requires OnlyWithin(store, next, {at})
    requires Holds(next, v) && ValOf(v) == ValOf(d.items[i])
    ensures Holds(next, Arr(d.ref, d.items[i := v]))
  {
    assert ItemVals(d.items[i := v]) == ItemVals(d.items);
    assert at != d.ref;
    forall j | 0 <= j < |d.items| && j != i ensures Holds(next, d.items[j]) {
      if j < i { assert Refs(d.items[j]) !! Refs(d.items[i]); } else { assert Refs(d.items[i]) !! Refs(d.items[j]); }
      FramedOutside(store, next, d.items[j], {at});
    }
  }

  lemma MakeHolds(store: Store, next: Store, d: Doc, c: Change)
    requires Holds(store, d) && Tree(d) && NewsHeld(store, c) && NewRefs(c) !! Refs(d) && !d.Leaf?
    requires next == store[d.ref := NodeOf(Make(d, c))]
    ensures Holds(next, Make(d, c)) && d.ref in Refs(d) && OnlyWithin(store, next, {d.ref})
  {
    hide Ordered;
    forall v | v in News(c) ensures Holds(next, v) {
      NewIn(c, v);
      FramedOutside(store, next, v, {d.ref});
    }
    PartsHold(store, next, d);
    if d.Arr? && c.Order? {
      OrderHolds(next, d, c);
    }
  }

  lemma PartsHold(store: Store, next: Store, d: Doc)
    requires Holds(store, d) && Tree(d) && !d.Leaf? && OnlyWithin(store, next, {d.ref})
    ensures d.Obj? ==> forall k :: k in d.fields ==> Holds(next, d.fields[k])
    ensures d.Arr? ==> forall j :: 0 <= j < |d.items| ==> Holds(next, d.items[j])
  {
    if d.Obj? {
      forall k | k in d.fields ensures Holds(next, d.fields[k]) {
        FramedOutside(store, next, d.fields[k], {d.ref});
      }
    } else {
      forall j | 0 <= j < |d.items| ensures Holds(next, d.items[j]) {
        FramedOutside(store, next, d.items[j], {d.ref});
      }
    }
  }

  lemma OrderHolds(next: Store, d: Doc, c: Change)
    requires d.Arr? && c.Order? && NewsHeld(next, c) && forall j :: 0 <= j < |d.items| ==> Holds(next, d.items[j])
    requires d.ref in next && next[d.ref] == NodeOf(Make(d, c))
    ensures Holds(next, Make(d, c))
  {
    hide Ordered;
    OrderOf(d.items, c.key, c.order, c.added);
    var rows := Ordered(d.items, c.key, c.order, c.added);
    forall j | 0 <= j < |rows| ensures Holds(next, rows[j]) {
      assert rows[j] in rows;
      if !(rows[j] in d.items) {
        assert rows[j] in News(c);
      }
    }
  }

  lemma {:induction false} OrderOf(rows: seq<Doc>, key: string, order: seq<string>, added: map<string, Doc>)
    ensures forall x :: x in Ordered(rows, key, order, added) ==>
              x in rows || exists id :: id in added && added[id] == x
  {
    if order != [] {
      OrderOf(rows, key, order[..|order| - 1], added);
    }
  }

  // ----- an edit set over another

  /** The edit is of what stands under `last` at the end of `q`, or of something within it. */
  predicate Under(p: seq<Step>, c: Change, q: seq<Step>, last: Step) {
    || q + [last] <= p
    || (p == q && match c
                  case PutField(name, _) => last == To(name)
                  case DropField(name) => last == To(name)
                  case PutRow(key, id, _) => last == Row(key, id)
                  case Order(_, _, _) => false
                  case Nothing => true)
  }

  /** A set over a thing leaves nothing of an edit made of it, or within it, before. */
  lemma {:induction false} SetOver(d: Doc, p: seq<Step>, c: Change, q: seq<Step>, last: Step, v: Doc)
    requires KeepsKey(p, c) && Under(p, c, q, last)
    ensures Edit(Edit(d, p, c), q, Put(last, v)) == Edit(d, q, Put(last, v))
    decreases |q|
  {
    hide KeepsKey;
    if q == [] {
      SetOverHere(d, p, c, last, v);
    } else {
      assert p[0] == q[0] && [p[0]] + p[1..] == p && [q[0]] + q[1..] == q;
      if Go(d, p[0]).Some? {
        StepEdited(d, p, c);
        var x := Go(d, p[0]).value;
        assert q[1..] + [last] == (q + [last])[1..];
        SetOver(x, p[1..], c, q[1..], last, v);
        EditedTwice(d, p[0], p[1..], c, q[1..], Put(last, v));
      } else {
        NowhereToGo(d, p, c);
      }
    }
  }

  lemma SetOverHere(d: Doc, p: seq<Step>, c: Change, last: Step, v: Doc)
    requires KeepsKey(p, c) && Under(p, c, [], last)
    ensures Edit(Edit(d, p, c), [], Put(last, v)) == Edit(d, [], Put(last, v))
  {
    hide Edit, Make, KeepsKey, Put;
    assert [] + [last] == [last];
    if p == [] {
      SetOverMade(d, c, last, v);
    } else {
      assert p[0] == last && [last] + p[1..] == p;
      if Go(d, last).None? {
        NowhereToGo(d, p, c);
      } else if last.To? {
        SetOverField(d, last, p[1..], c, v);
      } else {
        SetOverRow(d, last, p[1..], c, v);
      }
    }
  }

  lemma SetOverMade(d: Doc, c: Change, last: Step, v: Doc)
    requires KeepsKey([], c) && Under([], c, [], last)
    ensures Edit(Edit(d, [], c), [], Put(last, v)) == Edit(d, [], Put(last, v))
  {
    if c.PutRow? && d.Arr? && Find(d.items, c.key, c.id).Some? {
      FoundAgain(d.items, c.key, c.id, Find(d.items, c.key, c.id).value, c.v);
    }
  }

  lemma SetOverField(d: Doc, last: Step, p: seq<Step>, c: Change, v: Doc)
    requires last.To? && Go(d, last).Some?
    ensures Edit(Edit(d, [last] + p, c), [], Put(last, v)) == Edit(d, [], Put(last, v))
  {
    assert ([last] + p)[1..] == p;
    var x := Edit(d.fields[last.name], p, c);
    assert Edit(d, [last] + p, c) == Obj(d.ref, d.fields[last.name := x]);
    assert d.fields[last.name := x][last.name := v] == d.fields[last.name := v];
  }

  lemma SetOverRow(d: Doc, last: Step, p: seq<Step>, c: Change, v: Doc)
    requires last.Row? && Go(d, last).Some? && KeepsKey([last] + p, c)
    ensures Edit(Edit(d, [last] + p, c), [], Put(last, v)) == Edit(d, [], Put(last, v))
  {
    hide KeepsKey;
    assert ([last] + p)[1..] == p;
    var i := Find(d.items, last.key, last.id).value;
    var x := Edit(d.items[i], p, c);
    StepKeyed(d, [last] + p, c);
    FoundAgain(d.items, last.key, last.id, i, x);
    assert Edit(d, [last] + p, c) == Arr(d.ref, d.items[i := x]);
    assert d.items[i := x][i := v] == d.items[i := v];
  }

  /** A row edited with its key kept has it still. */
  lemma StepKeyed(d: Doc, p: seq<Step>, c: Change)
    requires p != [] && p[0].Row? && Go(d, p[0]).Some? && KeepsKey(p, c)
    ensures RowKey(Edit(Go(d, p[0]).value, p[1..], c), p[0].key) == Some(p[0].id)
  {
    EditedKey(Go(d, p[0]).value, p[1..], c, p[0].key);
  }

  lemma EditedTwice(d: Doc, s: Step, p: seq<Step>, c: Change, q: seq<Step>, c': Change)
    requires Go(d, s).Some? && KeepsKey([s] + p, c)
    requires var x := Go(d, s).value; Edit(Edit(x, p, c), q, c') == Edit(x, q, c')
    ensures Edit(Edit(d, [s] + p, c), [s] + q, c') == Edit(d, [s] + q, c')
  {
    hide KeepsKey;
    assert ([s] + p)[1..] == p && ([s] + q)[1..] == q;
    if s.Row? {
      StepKeyed(d, [s] + p, c);
      FoundAgain(d.items, s.key, s.id, Find(d.items, s.key, s.id).value, Edit(Go(d, s).value, p, c));
    }
  }

  /** The edit is of what a set at `path` replaces, or within it, and no row it goes through loses its key. */
  predicate Overwritten(op: Op<Doc>, path: seq<Step>) {
    && path != [] && KeepsKey(Parent(op), ChangeOf(op))
    && Under(Parent(op), ChangeOf(op), path[..|path| - 1], path[|path| - 1])
  }

  ghost predicate AllOverwritten(ops: seq<Op<Doc>>, path: seq<Step>) {
    forall i :: 0 <= i < |ops| ==> Overwritten(ops[i], path)
  }

  /** Edits overwritten make no difference to what the set leaves. */
  lemma {:induction false} SetOverAll(d: Doc, ops: seq<Op<Doc>>, over: Op<Doc>)
    requires over.Set? && AllOverwritten(ops, over.path)
    ensures Applied(AppliedAll(d, ops), over) == Applied(d, over)
  {
    hide Edit, Overwritten;
    if ops != [] {
      var n := |ops| - 1;
      SetOverAll(d, ops[..n], over);
      SetOverOne(AppliedAll(d, ops[..n]), ops[n], over);
    }
  }

  lemma SetOverOne(d: Doc, op: Op<Doc>, over: Op<Doc>)
    requires over.Set? && Overwritten(op, over.path)
    ensures Applied(Applied(d, op), over) == Applied(d, over)
  {
    hide Edit, KeepsKey, Under;
    var q, last := over.path[..|over.path| - 1], over.path[|over.path| - 1];
    assert ChangeOf(over) == Put(last, over.v);
    SetOver(d, Parent(op), ChangeOf(op), q, last, over.v);
  }

  // ----- the edits themselves

  /** A `set` is read back where it writes if and only if it keeps the key the path names its row by. */
  lemma SetReadsBackIff(d: Doc, p: seq<Step>, last: Step, v: Doc)
    requires Walk(d, p).Some? && Sits(Walk(d, p).value, last)
    ensures Walk(Applied(d, Set(p + [last], v)), p + [last]) == Some(v) <==> KeepsKey(p, Put(last, v))
  {
    hide Edit, KeepsKey;
    assert (p + [last])[..|p|] == p;
    ReadBackIff(d, p, last, v);
  }

  /** A `set` leaves what the thing it writes into has elsewhere. */
  lemma SetLeavesTheRest(d: Doc, p: seq<Step>, last: Step, v: Doc, other: Step)
    requires Walk(d, p).Some? && KeepsKey(p, Put(last, v)) && other != last
    requires last.Row? && other.Row? ==> last.key == other.key
    ensures Walk(Applied(d, Set(p + [last], v)), p + [other]) == Walk(d, p + [other])
  {
    hide Edit, KeepsKey;
    assert (p + [last])[..|p|] == p;
    PartsAt(p, Put(last, v), other);
    Elsewhere(d, p, Put(last, v), p + [other]);
  }

  /** A `del` removes the field it names, and no other of the object's. */
  lemma DelRemoves(d: Doc, p: seq<Step>, name: string, other: string)
    requires Walk(d, p).Some? && Walk(d, p).value.Obj? && KeepsKey(p, DropField(name)) && other != name
    ensures var e := Applied(d, Del(p + [To(name)]));
            && Walk(e, p).Some? && Walk(e, p).value.Obj? && Walk(e, p).value.ref == Walk(d, p).value.ref
            && Walk(e, p + [To(name)]) == None
            && Walk(e, p + [To(other)]) == Walk(d, p + [To(other)])
  {
    hide Edit, KeepsKey;
    assert (p + [To(name)])[..|p|] == p;
    var c := DropField(name);
    OnTheWay(d, p, c, p);
    var e := Applied(d, Del(p + [To(name)]));
    var x := Walk(d, p).value;
    assert p[|p|..] == [];
    assert Walk(e, p) == Some(Edit(x, [], c));
    FieldDropped(x, name);
    WalkOn(e, p, To(name));
    WalkOn(e, p, To(other));
    WalkOn(d, p, To(other));
  }

  lemma FieldDropped(x: Doc, name: string)
    requires x.Obj?
    ensures Edit(x, [], DropField(name)) == Obj(x.ref, x.fields - {name})
  {
  }

  /** A `rows` edit leaves the list at its path, the same list, with the rows named in the order named. */
  lemma RowsInOrder(d: Doc, p: seq<Step>, key: string, order: seq<string>, added: map<string, Doc>)
    requires Walk(d, p).Some? && Walk(d, p).value.Arr?
    requires Known(Walk(d, p).value.items, key, order, added) && Keyed(Walk(d, p).value.items, key)
    ensures var e, x := Walk(Applied(d, Rows(p, key, order, added)), p), Walk(d, p).value;
            && e.Some? && e.value.Arr? && e.value.ref == x.ref && InOrder(x.items, key, order, e.value.items)
            && (Distinct(order) ==> KeysOf(e.value.items, key) == Some(order))
  {
    hide Edit, Known, Keyed, InOrder, Distinct, KeysOf, Ordered;
    var x, c := Walk(d, p).value, Order(key, order, added);
    OnTheWay(d, p, c, p);
    assert p[|p|..] == [];
    Reordered(x, key, order, added);
    OrderIsKept(x.items, key, order, added);
  }

  lemma Reordered(x: Doc, key: string, order: seq<string>, added: map<string, Doc>)
    requires x.Arr?
    ensures Edit(x, [], Order(key, order, added)) == Arr(x.ref, Ordered(x.items, key, order, added))
  {
    hide Ordered;
  }

  lemma {:induction false} WalkOn(d: Doc, p: seq<Step>, s: Step)
    ensures Walk(d, p + [s]) == match Walk(d, p) case Some(x) => Go(x, s) case None => None
  {
    if p == [] {
      assert [s][1..] == [];
      assert p + [s] == [s];
    } else if Go(d, p[0]).Some? {
      assert (p + [s])[1..] == p[1..] + [s];
      WalkOn(Go(d, p[0]).value, p[1..], s);
    }
  }

  lemma {:induction false} PartsAt(p: seq<Step>, c: Change, other: Step)
    requires Untouched(c, other)
    ensures Parts(p, c, p + [other])
  {
    if p != [] {
      assert (p + [other])[1..] == p[1..] + [other];
      PartsAt(p[1..], c, other);
    }
  }
}
