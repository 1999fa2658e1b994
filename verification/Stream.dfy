/** The stream of the server's messages: numbered, so that one lost on the way is noticed, and each
    document the page shows the server's own of the version it holds. */
module Stream {
  import opened Trading
  import opened Documents
  import opened Reconcile
  import opened Patches

  type Version = string

  /** The server's documents: book, document and version to what it says. */
  type Table = (string, string, Version) -> Plain

  datatype Msg =
    | Hello(book: string)
    | Snapshot(doc: string, data: Doc, v: Version)
    | Same(doc: string, v: Version)
    | Patch(doc: string, ops: seq<Op<Doc>>, v: Version)
    | Refused(doc: string)

  /** A document on show: what is held of it, and which version that is. */
  datatype Holder = Holder(data: Option<Doc>, v: Option<Version>)

  const EMPTY := Holder(None, None)

  /** The page's end: the number last seen, whether the stream has said hello, the book shown, the
      documents on show, and the row keys of each. */
  datatype Client = Client(last: int, live: bool, book: string, wanted: map<string, Holder>, keys: map<string, Keys>)

  // ----- what the page does with a message

  /** Whether a message of this number shows that one was lost. */
  predicate IsGap(last: int, n: int) {
    n != 1 && last != 0 && n != last + 1
  }

  function KeysFor(c: Client, doc: string): Keys {
    if doc in c.keys then c.keys[doc] else []
  }

  function Taken(c: Client, m: Msg): Client {
    match m
    case Hello(b) =>
      var d := c.(live := true);
      if b == "" || b == c.book then d
      else if c.book == "" then d.(book := b)
      else d.(book := b, wanted := map k | k in c.wanted :: EMPTY)
    case Snapshot(doc, data, v) =>
      if doc !in c.wanted then c
      else
        var was := c.wanted[doc].data;
        var now := if was.Some? && was.value.Obj? && data.Obj? then Over(was.value, data, KeysFor(c, doc), [])
                   else data;
        c.(wanted := c.wanted[doc := Holder(Some(now), Some(v))])
    case Same(doc, v) => if doc in c.wanted then c.(wanted := c.wanted[doc := c.wanted[doc].(v := Some(v))]) else c
    case Patch(doc, ops, v) =>
      if doc in c.wanted && c.wanted[doc].data.Some? then
        c.(wanted := c.wanted[doc := Holder(Some(AppliedAll(c.wanted[doc].data.value, ops)), Some(v))])
      else c
    case Refused(_) => c
  }

  /** The numbering: it asks for the whole state where a message is not the next. */
  class Numbering {
    var last: int

    constructor ()
      ensures last == 0
    {
      last := 0;
    }

    /** A number that is no positive whole one is passed over. */
    method Seen(id: Option<int>) returns (gap: bool)
      modifies this
      ensures id.None? || id.value <= 0 ==> !gap && last == old(last)
      ensures id.Some? && id.value > 0 ==> gap == IsGap(old(last), id.value) && last == id.value
    {
      gap := false;
      if id.None? || id.value <= 0 {
        return;
      }
      var n := id.value;
      if n == 1 {
        last := 0;
      }
      if last != 0 && n != last + 1 {
        gap := true;
      }
      last := n;
    }
  }

  /** The handlers, each writing what the page shows. */
  class Connection {
    var seen: Numbering
    var live: bool
    var book: string
    var wanted: map<string, Holder>
    const keys: map<string, Keys>

    ghost function View(): Client
      reads this, seen
    {
      Client(seen.last, live, book, wanted, keys)
    }

    constructor (book: string, keys: map<string, Keys>)
      ensures fresh(seen) && View() == Client(0, false, book, map[], keys)
    {
      seen := new Numbering();
      live, this.book, wanted, this.keys := false, book, map[], keys;
    }

    /** One message: whether the whole state is asked for, and the page after it. */
    method On(n: nat, m: Msg) returns (asked: bool)
      requires n > 0
      modifies this, seen
      ensures seen == old(seen) && asked == (IsGap(old(seen.last), n) && old(live))
      ensures View() == Taken(old(View()).(last := n), m)
    {
      hide Over, AppliedAll;
      var gap := seen.Seen(Some(n));
      asked := gap && live;
      match m {
        case Hello(b) => OnHello(b);
        case Snapshot(doc, data, v) => OnSnapshot(doc, data, v);
        case Same(doc, v) =>
          if doc in wanted {
            wanted := wanted[doc := wanted[doc].(v := Some(v))];
          }
        case Patch(doc, ops, v) =>
          if doc in wanted && wanted[doc].data.Some? {
            wanted := wanted[doc := Holder(Some(AppliedAll(wanted[doc].data.value, ops)), Some(v))];
          }
        case Refused(_) =>
      }
    }

    method OnHello(b: string)
      modifies this
      ensures seen == old(seen) && View() == Taken(old(View()), Hello(b))
    {
      live := true;
      if b != "" && b != book {
        if book != "" {
          wanted := map k | k in wanted :: EMPTY;
        }
        book := b;
      }
    }

    method OnSnapshot(doc: string, data: Doc, v: Version)
      modifies this
      ensures seen == old(seen) && View() == Taken(old(View()), Snapshot(doc, data, v))
    {
      if doc !in wanted {
        return;
      }
      var was := wanted[doc].data;
      if was.Some? && was.value.Obj? && data.Obj? {
        wanted := wanted[doc := Holder(Some(Over(was.value, data, if doc in keys then keys[doc]
                                                                  else [], [])), Some(v))];
      } else {
        wanted := wanted[doc := Holder(Some(data), Some(v))];
      }
    }
  }

  // ----- the server

  /** The version of each document the server has brought the page to, once all of `sent` is taken. */
  function Base(have: map<string, Version>, sent: seq<Msg>): map<string, Version> {
    if sent == [] then have
    else
      var base := Base(have, sent[..|sent| - 1]);
      match sent[|sent| - 1]
      case Snapshot(doc, _, v) => base[doc := v]
      case Same(doc, v) => base[doc := v]
      case Patch(doc, _, v) => base[doc := v]
      case _ => base
  }

  /** The server's word: it says hello first and once; a document whole is the one of its version;
      the same is the same; and a patch makes of its own document, as last sent, the next. */
  ghost predicate Honest(table: Table, book: string, base: map<string, Version>, first: bool, m: Msg) {
    && (m.Hello? <==> first)
    && match m
       case Hello(b) => b == book
       case Snapshot(doc, data, v) => Says(data) == table(book, doc, v)
       case Same(doc, v) => doc in base && table(book, doc, base[doc]) == table(book, doc, v)
       case Patch(doc, ops, v) => doc in base && Turns(table(book, doc, base[doc]), ops, table(book, doc, v))
       case Refused(_) => true
  }

  ghost predicate Turns(from: Plain, ops: seq<Op<Doc>>, to: Plain) {
    exists d :: Says(d) == from && Says(AppliedAll(d, ops)) == to
  }

  /** A connection: the documents its address names, and the versions of them it states; what the
      server takes the page to hold, what it has sent, and how much of that has arrived or been lost:
      `delivered`, the last to arrive, and `taken`, how many did. `started` once the first message has
      arrived; `asked`, `blind` and `stale`, whether ever the whole state was asked for, a message came
      with the first of its connection lost, or a connection was made again stating another version of
      a document than is held; `dirty`, the documents that may be other than the server's. */
  datatype World = World(
    client: Client, book: string, named: set<string>, told: map<string, Version>,
    have: map<string, Version>, sent: seq<Msg>, delivered: nat, taken: nat,
    started: bool, asked: bool, blind: bool, stale: bool, dirty: set<string>)

  datatype Event =
    | Open(renew: bool, server: string)
    | Send(m: Msg)
    | Deliver(n: nat)
    | Show(doc: string, kept: Option<(Doc, Option<Version>)>)
    | Leave(doc: string)

  /** The page holds a version of the document, and says so. */
  function Having(wanted: map<string, Holder>): map<string, Version> {
    map k | k in wanted && wanted[k].data.Some? && wanted[k].v.Some? :: wanted[k].v.value
  }

  predicate Of(m: Msg, doc: string) {
    (m.Snapshot? || m.Same? || m.Patch?) && m.doc == doc
  }

  predicate OnStream(w: World, doc: string) {
    doc in w.have || exists j :: 0 <= j < |w.sent| && Of(w.sent[j], doc)
  }

  function Arrived(w: World): map<string, Version>
    requires w.delivered <= |w.sent|
  {
    Base(w.have, w.sent[..w.delivered])
  }

  /** The documents held at another version than the connection's address states. */
  function Overtaken(w: World): set<string> {
    set doc | doc in w.client.wanted && w.client.wanted[doc].data.Some? && doc in w.named && doc in w.told
              && w.client.wanted[doc].v != Some(w.told[doc])
  }

  /** What the server is told when the browser makes a connection again by itself: the address as it
      was, and, once it has said hello, the documents since shown that the address does not name. */
  function Restated(w: World): map<string, Version> {
    var having := Having(w.client.wanted);
    map k | k in w.told.Keys + having.Keys && (if k in w.named then k in w.told else k in having) ::
      if k in w.named then w.told[k] else having[k]
  }

  /** A connection is opened, with a numbering and an address of its own; or, not `renew`, the browser
      makes the one there was again, with the numbering and the address it had. */
  function OnOpen(w: World, renew: bool, server: string): World {
    w.(client := w.client.(live := false, last := if renew then 0 else w.client.last), book := server,
       named := if renew then w.client.wanted.Keys else w.named,
       told := if renew then Having(w.client.wanted) else w.told,
       have := if renew then Having(w.client.wanted)
               else Restated(w), sent := [], delivered := 0, taken := 0, started := false,
       stale := w.stale || (!renew && Overtaken(w) != {}), dirty := if renew then w.dirty else w.dirty + Overtaken(w))
  }

  /** A message arrives, those between it and the last being lost. */
  function OnDeliver(w: World, n: nat): World
    requires w.delivered < n <= |w.sent|
  {
    var m := w.sent[n - 1];
    var started := w.started || n == 1;
    var all := if n > w.delivered + 1 || !started then w.dirty + w.client.wanted.Keys else w.dirty;
    w.(client := Taken(w.client.(last := n), m), delivered := n, taken := w.taken + 1, started := started,
       asked := w.asked || (IsGap(w.client.last, n) && w.client.live), blind := w.blind || !started,
       dirty := if started && m.Snapshot? then all - {m.doc} else all)
  }

  /** What was kept of a document can be shown: it is what the book's says, and where the server is
      sending that document already, of the version it is at. */
  ghost predicate CanShow(table: Table, w: World, doc: string, d: Doc, v: Option<Version>) {
    && w.client.book != ""
    && (v.Some? ==> Says(d) == table(w.client.book, doc, v.value))
    && w.delivered <= |w.sent|
    && (OnStream(w, doc) ==> doc in Arrived(w) && v == Some(Arrived(w)[doc]))
  }

  function OnShow(w: World, doc: string, d: Doc, v: Option<Version>): World {
    w.(client := w.client.(wanted := w.client.wanted[doc := Holder(Some(d), v)]),
       have := if v.Some? && !OnStream(w, doc) then w.have[doc := v.value] else w.have,
       dirty := if w.delivered > 0 && !w.started then w.dirty + {doc} else w.dirty)
  }

  ghost function Step(table: Table, w: World, e: Event): World {
    match e
    case Open(renew, server) => if server != "" then OnOpen(w, renew, server) else w
    case Send(m) => if Honest(table, w.book, Base(w.have, w.sent), w.sent == [], m) then w.(sent := w.sent + [m]) else w
    case Deliver(n) => if w.delivered < n <= |w.sent| then OnDeliver(w, n) else w
    case Show(doc, kept) =>
      if doc in w.client.wanted then w
      else if kept.None? then w.(client := w.client.(wanted := w.client.wanted[doc := EMPTY]))
      else if CanShow(table, w, doc, kept.value.0, kept.value.1) then OnShow(w, doc, kept.value.0, kept.value.1)
      else w
    case Leave(doc) => w.(client := w.client.(wanted := w.client.wanted - {doc}))
  }

  ghost function Run(table: Table, w: World, es: seq<Event>): World {
    if es == [] then w else Step(table, Run(table, w, es[..|es| - 1]), es[|es| - 1])
  }

  /** A page opening, shown nothing yet. */
  function Start(book: string, server: string, keys: map<string, Keys>): World {
    World(Client(0, false, book, map[], keys), server, {}, map[], map[], [], 0, 0, false, false, false, false, {})
  }

  // ----- what holds throughout

  ghost predicate Sent(table: Table, book: string, have: map<string, Version>, sent: seq<Msg>) {
    forall j :: 0 <= j < |sent| ==> Honest(table, book, Base(have, sent[..j]), j == 0, sent[j])
  }

  /** A document on show, of a stream whose messages have all come since its last snapshot, is the
      server's of the version held; and where the server takes it to be at a version, it is that. */
  ghost predicate Right(table: Table, book: string, base: map<string, Version>, doc: string, h: Holder) {
    h.data.Some? ==>
      if h.v.Some? then
        book != "" && Says(h.data.value) == table(book, doc, h.v.value) && (doc in base ==> base[doc] == h.v.value)
      else doc !in base
  }

  ghost predicate AllRight(table: Table, book: string, base: map<string, Version>, wanted: map<string, Holder>,
      dirty: set<string>) {
    forall doc :: doc in wanted && doc !in dirty ==> Right(table, book, base, doc, wanted[doc])
  }

  ghost predicate Numbered(w: World) {
    && w.delivered <= |w.sent|
    && (w.started ==> w.delivered > 0 && w.client.last == w.delivered && w.client.live && w.client.book == w.book)
    && (!w.started && w.delivered > 0 ==>
          w.blind && forall doc :: doc in w.client.wanted && w.client.wanted[doc].data.Some? ==> doc in w.dirty)
    && (!w.started ==> !w.client.live)
    && (!w.asked && !w.blind ==> w.taken == w.delivered)
    && (!w.asked && !w.blind && !w.stale ==> w.dirty == {})
  }

  ghost predicate Valid(table: Table, w: World) {
    && w.book != "" && Numbered(w) && Sent(table, w.book, w.have, w.sent)
    && AllRight(table, w.client.book, Arrived(w), w.client.wanted, w.dirty)
  }

  // ----- every step keeps it

  // ----- a message written into what is held

  /** A document on show that the connection's address states is held at another version than it states. */
  ghost predicate HeldApart(w: World, doc: string) {
    && doc in w.client.wanted && w.client.wanted[doc].data.Some?
    && doc in w.named && doc in w.told && w.client.wanted[doc].v != Some(w.told[doc])
  }

  /** A connection made again by the browser is stale where some document is so; one opened anew states
      what is held. */
  lemma StaleWhere(w: World, renew: bool, server: string)
    ensures var w' := OnOpen(w, renew, server);
            && (w'.stale <==> w.stale || (!renew && exists doc :: HeldApart(w, doc)))
            && (renew ==> w'.have == Having(w.client.wanted) == w'.told && w'.dirty == w.dirty)
  {
    assert forall doc :: doc in Overtaken(w) <==> HeldApart(w, doc);
  }

  /** A document sent whole is written into the one held: along every path both have, fields by name and
      rows by key, what is there is the thing that was, and all of it says what came. */
  lemma SnapshotWritesInto(c: Client, doc: string, data: Doc, v: Version, p: seq<Step>)
    requires doc in c.wanted && c.wanted[doc].data.Some? && c.wanted[doc].data.value.Obj? && data.Obj?
    requires Matched(c.wanted[doc].data.value, data, p, KeysFor(c, doc), [])
    ensures var was, h := c.wanted[doc].data.value, Taken(c, Snapshot(doc, data, v)).wanted[doc];
            && h.data.Some? && h.data.value.ref == was.ref && h.v == Some(v) && Says(h.data.value) == Says(data)
            && Walk(was, p).Some? && Walk(data, p).Some? && Walk(h.data.value, p).Some?
            && var x, y, z := Walk(was, p).value, Walk(data, p).value, Walk(h.data.value, p).value;
               && (x.Obj? && y.Obj? ==> z.Obj? && z.ref == x.ref)
               && (x.Arr? && y.Arr? ==> z.Arr? && z.ref == x.ref)
  {
    hide Says, Matched, Walk;
    var was, keys := c.wanted[doc].data.value, KeysFor(c, doc);
    Reconcile.OverSays(was, data, keys, []);
    Reconcile.SameThing(was, data, p, keys, []);
    assert Field(Some(was), data, keys, []) == Over(was, data, keys, []);
  }

  /** A patch makes of what the page holds what it made of the server's own. */
  lemma {:induction false} AllSays(d: Doc, e: Doc, ops: seq<Op<Doc>>)
    requires Says(d) == Says(e)
    ensures Says(AppliedAll(d, ops)) == Says(AppliedAll(e, ops))
  {
    if ops != [] {
      var n := |ops| - 1;
      AllSays(d, e, ops[..n]);
      EditSays(AppliedAll(d, ops[..n]), AppliedAll(e, ops[..n]), Parent(ops[n]), ChangeOf(ops[n]));
    }
  }

  lemma TurnsTheHeld(d: Doc, from: Plain, ops: seq<Op<Doc>>, to: Plain)
    requires Says(d) == from && Turns(from, ops, to)
    ensures Says(AppliedAll(d, ops)) == to
  {
    var e :| Says(e) == from && Says(AppliedAll(e, ops)) == to;
    AllSays(d, e, ops);
  }

  lemma OneMoreSent(have: map<string, Version>, sent: seq<Msg>, n: nat)
    requires n < |sent|
    ensures Base(have, sent[..n + 1]) == match sent[n]
                                         case Snapshot(doc, _, v) => Base(have, sent[..n])[doc := v]
                                         case Same(doc, v) => Base(have, sent[..n])[doc := v]
                                         case Patch(doc, _, v) => Base(have, sent[..n])[doc := v]
                                         case _ => Base(have, sent[..n])
  {
    assert sent[..n + 1][..n] == sent[..n];
  }

  /** The next message, honest, leaves every document right that was, and one sent whole too. */
  lemma TakesRight(table: Table, c: Client, base: map<string, Version>, base': map<string, Version>, m: Msg, n: int,
      dirty: set<string>)
    requires AllRight(table, c.book, base, c.wanted, dirty) && !m.Hello? && c.book != ""
    requires Honest(table, c.book, base, false, m)
    requires base' == match m
                      case Snapshot(doc, _, v) => base[doc := v]
                      case Same(doc, v) => base[doc := v]
                      case Patch(doc, _, v) => base[doc := v]
                      case _ => base
    ensures var d := Taken(c.(last := n), m);
            d.book == c.book && AllRight(table, c.book, base', d.wanted, if m.Snapshot? then dirty - {m.doc} else dirty)
  {
    hide Over, AppliedAll, Says, Turns;
    var d := Taken(c.(last := n), m);
    if m.Patch? && m.doc in c.wanted && m.doc !in dirty && c.wanted[m.doc].data.Some? {
      assert Right(table, c.book, base, m.doc, c.wanted[m.doc]);
      TurnsTheHeld(c.wanted[m.doc].data.value, table(c.book, m.doc, base[m.doc]), m.ops, table(c.book, m.doc, m.v));
    }
    if m.Snapshot? && m.doc in c.wanted {
      SnapshotRight(table, c.(last := n), m);
    }
    forall doc | doc in d.wanted && doc !in dirty - (if m.Snapshot? then {m.doc} else {})
      ensures Right(table, c.book, base', doc, d.wanted[doc])
    {
      if doc !in dirty {
        assert Right(table, c.book, base, doc, c.wanted[doc]);
      }
    }
  }

  lemma SnapshotRight(table: Table, c: Client, m: Msg)
    requires m.Snapshot? && m.doc in c.wanted
    ensures var d := Taken(c, m);
            && d.wanted.Keys == c.wanted.Keys && d.wanted[m.doc].v == Some(m.v) && d.wanted[m.doc].data.Some?
            && Says(d.wanted[m.doc].data.value) == Says(m.data)
            && forall doc :: doc in c.wanted && doc != m.doc ==> d.wanted[doc] == c.wanted[doc]
  {
    hide Over, Says;
    var was := c.wanted[m.doc].data;
    if was.Some? && was.value.Obj? && m.data.Obj? {
      OverSays(was.value, m.data, KeysFor(c, m.doc), []);
    }
  }

  /** After a loss nothing on show is known to be right, but a document then sent whole is. */
  lemma SnapshotAfterLoss(table: Table, c: Client, base': map<string, Version>, m: Msg, n: int, dirty: set<string>)
    requires m.Snapshot? && c.book != "" && Says(m.data) == table(c.book, m.doc, m.v) && m.doc in base'
    requires base'[m.doc] == m.v
    ensures AllRight(table, c.book, base', Taken(c.(last := n), m).wanted, dirty + c.wanted.Keys - {m.doc})
  {
    hide Over, Says;
    if m.doc in c.wanted {
      SnapshotRight(table, c.(last := n), m);
    }
  }

  lemma HelloRight(table: Table, c: Client, base: map<string, Version>, b: string, n: int, dirty: set<string>)
    requires AllRight(table, c.book, base, c.wanted, dirty) && b != ""
    ensures var d := Taken(c.(last := n), Hello(b)); d.book == b && AllRight(table, b, base, d.wanted, dirty)
  {
    hide Says;
    var d := Taken(c.(last := n), Hello(b));
    forall doc | doc in d.wanted && doc !in dirty ensures Right(table, b, base, doc, d.wanted[doc]) {
      assert Right(table, c.book, base, doc, c.wanted[doc]);
    }
  }

  lemma TakenKeeps(c: Client, m: Msg)
    ensures Taken(c, m).wanted.Keys == c.wanted.Keys && Taken(c, m).last == c.last
    ensures !m.Hello? ==> Taken(c, m).live == c.live && Taken(c, m).book == c.book
    ensures m.Hello? ==> Taken(c, m).live && (m.book != "" ==> Taken(c, m).book == m.book)
  {
    hide Over, AppliedAll;
  }

  lemma DeliverNumbers(table: Table, w: World, n: nat)
    requires Valid(table, w) && w.delivered < n <= |w.sent|
    ensures Numbered(OnDeliver(w, n))
  {
    hide Taken, AllRight, Honest, Base, Sent;
    TakenKeeps(w.client.(last := n), w.sent[n - 1]);
    HonestAt(table, w, n);
  }

  lemma DeliverKeeps(table: Table, w: World, n: nat)
    requires Valid(table, w) && w.delivered < n <= |w.sent|
    ensures Valid(table, OnDeliver(w, n))
  {
    hide Taken, AllRight, Base, Honest, Numbered;
    var w', m := OnDeliver(w, n), w.sent[n - 1];
    DeliverNumbers(table, w, n);
    HonestAt(table, w, n);
    TakenKeeps(w.client.(last := n), m);
    OneMoreSent(w.have, w.sent, n - 1);
    if !w'.started {
      NothingRight(table, w'.client.book, Arrived(w'), w'.client.wanted, w'.dirty);
    } else if m.Hello? {
      HelloRight(table, w.client, Arrived(w), m.book, n, w.dirty);
      MoreDirty(table, w'.client.book, Arrived(w'), w'.client.wanted, w.dirty, w'.dirty);
    } else if n == w.delivered + 1 {
      TakesRight(table, w.client, Arrived(w), Arrived(w'), m, n, w.dirty);
    } else if m.Snapshot? {
      SnapshotAfterLoss(table, w.client, Arrived(w'), m, n, w.dirty);
    } else {
      NothingRight(table, w'.client.book, Arrived(w'), w'.client.wanted, w'.dirty);
    }
  }

  lemma HonestAt(table: Table, w: World, n: nat)
    requires Valid(table, w) && w.delivered < n <= |w.sent|
    ensures var m, base := w.sent[n - 1], Base(w.have, w.sent[..n - 1]);
            && Honest(table, w.book, base, n == 1, m)
            && (m.Hello? <==> n == 1) && (m.Hello? ==> m.book == w.book && m.book != "")
            && (m.Snapshot? ==> Says(m.data) == table(w.book, m.doc, m.v))
            && (w.started ==> w.client.book == w.book && w.book != "" && w.delivered > 0)
  {
    assert Honest(table, w.book, Base(w.have, w.sent[..n - 1]), n - 1 == 0, w.sent[n - 1]);
  }

  lemma NothingRight(table: Table, book: string, base: map<string, Version>, wanted: map<string, Holder>,
      dirty: set<string>)
    requires wanted.Keys <= dirty
    ensures AllRight(table, book, base, wanted, dirty)
  {
  }

  lemma MoreDirty(table: Table, book: string, base: map<string, Version>, wanted: map<string, Holder>,
      dirty: set<string>, dirty': set<string>)
    requires AllRight(table, book, base, wanted, dirty) && dirty <= dirty'
    ensures AllRight(table, book, base, wanted, dirty')
  {
  }

  lemma OpenKeeps(table: Table, w: World, renew: bool, server: string)
    requires Valid(table, w) && server != ""
    ensures Valid(table, OnOpen(w, renew, server))
  {
    hide Says;
    var w' := OnOpen(w, renew, server);
    assert Arrived(w') == w'.have;
    forall doc | doc in w'.client.wanted && doc !in w'.dirty
      ensures Right(table, w'.client.book, Arrived(w'), doc, w'.client.wanted[doc])
    {
      assert Right(table, w.client.book, Arrived(w), doc, w.client.wanted[doc]);
    }
  }

  lemma SendKeeps(table: Table, w: World, m: Msg)
    requires Valid(table, w) && Honest(table, w.book, Base(w.have, w.sent), w.sent == [], m)
    ensures Valid(table, w.(sent := w.sent + [m]))
  {
    hide Honest, AllRight;
    var w' := w.(sent := w.sent + [m]);
    assert w'.sent[..w.delivered] == w.sent[..w.delivered];
    forall j | 0 <= j < |w'.sent| ensures Honest(table, w.book, Base(w.have, w'.sent[..j]), j == 0, w'.sent[j]) {
      if j < |w.sent| {
        assert w'.sent[..j] == w.sent[..j];
      } else {
        assert w'.sent[..j] == w.sent;
      }
    }
  }

  /** What the server is told of a document it has sent nothing of is as if told at the start. */
  lemma {:induction false} ToldLater(have: map<string, Version>, sent: seq<Msg>, doc: string, v: Version)
    requires forall j :: 0 <= j < |sent| ==> !Of(sent[j], doc)
    ensures Base(have[doc := v], sent) == Base(have, sent)[doc := v]
    ensures doc in Base(have, sent) <==> doc in have
  {
    if sent != [] {
      ToldLater(have, sent[..|sent| - 1], doc, v);
    }
  }

  lemma ShowSent(table: Table, w: World, doc: string, v: Version)
    requires Sent(table, w.book, w.have, w.sent) && !OnStream(w, doc)
    ensures Sent(table, w.book, w.have[doc := v], w.sent)
  {
    hide Turns;
    forall j | 0 <= j < |w.sent| ensures Honest(table, w.book, Base(w.have[doc := v], w.sent[..j]), j == 0, w.sent[j]) {
      assert Honest(table, w.book, Base(w.have, w.sent[..j]), j == 0, w.sent[j]);
      ToldLater(w.have, w.sent[..j], doc, v);
      assert !Of(w.sent[j], doc);
    }
  }

  lemma ShowKeeps(table: Table, w: World, doc: string, d: Doc, v: Option<Version>)
    requires Valid(table, w) && doc !in w.client.wanted && CanShow(table, w, doc, d, v)
    ensures Valid(table, OnShow(w, doc, d, v))
  {
    hide Says, Honest;
    var w' := OnShow(w, doc, d, v);
    if !OnStream(w, doc) {
      ToldLater(w.have, w.sent[..w.delivered], doc, if v.Some? then v.value else "");
      if v.Some? {
        ShowSent(table, w, doc, v.value);
      }
    }
    forall k | k in w'.client.wanted && k !in w'.dirty
      ensures Right(table, w'.client.book, Arrived(w'), k, w'.client.wanted[k])
    {
      if k != doc {
        assert Right(table, w.client.book, Arrived(w), k, w.client.wanted[k]);
      }
    }
  }

  lemma LeaveKeeps(table: Table, w: World, doc: string)
    requires Valid(table, w)
    ensures Valid(table, w.(client := w.client.(wanted := w.client.wanted - {doc})))
    ensures doc !in w.client.wanted ==> Valid(table, w.(client := w.client.(wanted := w.client.wanted[doc := EMPTY])))
  {
    hide Says, Honest;
  }

  lemma StepKeeps(table: Table, w: World, e: Event)
    requires Valid(table, w)
    ensures Valid(table, Step(table, w, e))
  {
    hide Valid, Honest, Says, CanShow;
    match e
    case Open(renew, server) => if server != "" { OpenKeeps(table, w, renew, server); }
    case Send(m) => if Honest(table, w.book, Base(w.have, w.sent), w.sent == [], m) { SendKeeps(table, w, m); }
    case Deliver(n) => if w.delivered < n <= |w.sent| { DeliverKeeps(table, w, n); }
    case Show(doc, kept) =>
      if doc !in w.client.wanted {
        LeaveKeeps(table, w, doc);
        if kept.Some? && CanShow(table, w, doc, kept.value.0, kept.value.1) {
          ShowKeeps(table, w, doc, kept.value.0, kept.value.1);
        }
      }
    case Leave(doc) => LeaveKeeps(table, w, doc);
  }

  lemma StartsValid(table: Table, book: string, server: string, keys: map<string, Keys>)
    requires server != ""
    ensures Valid(table, Start(book, server, keys))
  {
  }

  /** Over every run: messages sent, lost and taken, documents shown and left, connections made again. */
  lemma {:induction false} RunsAreValid(table: Table, book: string, server: string, keys: map<string, Keys>,
      es: seq<Event>)
    requires server != ""
    ensures Valid(table, Run(table, Start(book, server, keys), es))
  {
    hide Valid, Step;
    if es == [] {
      StartsValid(table, book, server, keys);
    } else {
      RunsAreValid(table, book, server, keys, es[..|es| - 1]);
      StepKeeps(table, Run(table, Start(book, server, keys), es[..|es| - 1]), es[|es| - 1]);
    }
  }

  // ----- what that means

  /** While no message came before the first of its connection and the whole state was never asked
      for, every message up to the last has been taken; and each document held at a version is the
      server's of that version, if besides no connection was made again stating another. */
  lemma HeldIsTheServers(table: Table, book: string, server: string, keys: map<string, Keys>, es: seq<Event>)
    requires server != ""
    ensures var w := Run(table, Start(book, server, keys), es);
            w.started && !w.asked && !w.blind ==>
              && w.taken == w.delivered == w.client.last
              && (!w.stale ==>
                  forall doc :: doc in w.client.wanted && w.client.wanted[doc].data.Some?
                                && w.client.wanted[doc].v.Some? ==>
                    Says(w.client.wanted[doc].data.value) == table(w.book, doc, w.client.wanted[doc].v.value))
  {
    hide Run, Says, Sent;
    RunsAreValid(table, book, server, keys, es);
    var w := Run(table, Start(book, server, keys), es);
    forall doc | doc in w.client.wanted && w.started && !w.asked && !w.blind && !w.stale
      ensures Right(table, w.book, Arrived(w), doc, w.client.wanted[doc])
    {
    }
  }

  /** And whatever was lost, a document not lost track of is. */
  lemma CleanIsTheServers(table: Table, book: string, server: string, keys: map<string, Keys>, es: seq<Event>,
      doc: string)
    requires server != ""
    ensures var w := Run(table, Start(book, server, keys), es);
            w.started && doc in w.client.wanted && doc !in w.dirty
            && w.client.wanted[doc].data.Some? && w.client.wanted[doc].v.Some? ==>
              Says(w.client.wanted[doc].data.value) == table(w.book, doc, w.client.wanted[doc].v.value)
  {
    hide Run, Says, Sent;
    RunsAreValid(table, book, server, keys, es);
    var w := Run(table, Start(book, server, keys), es);
    assert doc in w.client.wanted && doc !in w.dirty ==>
             Right(table, w.client.book, Arrived(w), doc, w.client.wanted[doc]);
  }

  /** The whole state is asked for as a message arrives if and only if one before it was lost and the
      first of the connection was not. */
  lemma LossIsAskedIff(table: Table, book: string, server: string, keys: map<string, Keys>, es: seq<Event>, n: nat)
    requires server != "" && var w := Run(table, Start(book, server, keys), es); w.delivered < n <= |w.sent|
    ensures var w := Run(table, Start(book, server, keys), es);
            (IsGap(w.client.last, n) && w.client.live) <==> (n > w.delivered + 1 && w.started)
  {
    hide Run, Sent, AllRight;
    RunsAreValid(table, book, server, keys, es);
  }

  /** A document then sent whole is the server's again, whatever was lost. */
  lemma SnapshotRestores(table: Table, book: string, server: string, keys: map<string, Keys>, es: seq<Event>, n: nat)
    requires server != "" && var w := Run(table, Start(book, server, keys), es);
             w.started && w.delivered < n <= |w.sent| && w.sent[n - 1].Snapshot? && w.sent[n - 1].doc in w.client.wanted
    ensures var w := Run(table, Start(book, server, keys), es);
            var m, w' := w.sent[n - 1], Step(table, w, Deliver(n));
            && m.doc !in w'.dirty && w'.client.wanted[m.doc].v == Some(m.v) && w'.client.wanted[m.doc].data.Some?
            && Says(w'.client.wanted[m.doc].data.value) == table(w.book, m.doc, m.v)
  {
    hide Run, Sent, AllRight, Says, Honest, Numbered, Over;
    RunsAreValid(table, book, server, keys, es);
    var w := Run(table, Start(book, server, keys), es);
    HonestAt(table, w, n);
    SnapshotRight(table, w.client.(last := n), w.sent[n - 1]);
  }

  // ----- a connection made again

  lemma RunMore(table: Table, w: World, es: seq<Event>, e: Event)
    ensures Run(table, w, es + [e]) == Step(table, Run(table, w, es), e)
  {
    assert (es + [e])[..|es|] == es;
  }

  /** A connection made again on which the server's word on a document is that it is the same. */
  function Again(renew: bool, book: string, doc: string, u: Version): seq<Event> {
    [Open(renew, book), Send(Hello(book)), Send(Same(doc, u)), Deliver(1), Deliver(2)]
  }

  lemma RunAgain(table: Table, w: World, es: seq<Event>, renew: bool, book: string, doc: string, u: Version)
    ensures Run(table, w, es + Again(renew, book, doc, u))
            == Step(table, Step(table,
                Step(table, Step(table, Step(table, Run(table, w, es), Open(renew, book)), Send(Hello(book))),
                                            Send(Same(doc, u))), Deliver(1)), Deliver(2))
  {
    hide Step, Run;
    var again := Again(renew, book, doc, u);
    RunMore(table, w, es, again[0]);
    RunMore(table, w, es + again[..1], again[1]);
    RunMore(table, w, es + again[..2], again[2]);
    RunMore(table, w, es + again[..3], again[3]);
    RunMore(table, w, es + again[..4], again[4]);
    assert es + again[..1] == es + [again[0]] && es + again[..2] == es + again[..1] + [again[1]];
    assert es + again[..3] == es + again[..2] + [again[2]] && es + again[..4] == es + again[..3] + [again[3]];
    assert es + again == es + again[..4] + [again[4]];
  }

  /** What is held stays as it is, under the version the server says. */
  lemma SameLeavesIt(table: Table, w: World, doc: string, renew: bool, u: Version)
    requires w.book != "" && w.client.book == w.book && doc in w.client.wanted && w.client.wanted[doc].data.Some?
    requires var have := OnOpen(w, renew, w.book).have; doc in have && table(w.book, doc, have[doc]) == table(w.book,
        doc, u)
    ensures var w1 := Step(table, Step(table, Step(table, w, Open(renew, w.book)), Send(Hello(w.book))),
        Send(Same(doc, u)));
            var w2 := Step(table, Step(table, w1, Deliver(1)), Deliver(2));
            && w1.sent == [Hello(w.book),
                Same(doc, u)] && w2.taken == w2.delivered == 2 && w2.started && w2.book == w.book
            && w2.client.wanted == w.client.wanted[doc := w.client.wanted[doc].(v := Some(u))]
            && w2.asked == w.asked && w2.blind == w.blind
  {
    hide Says, Turns, Having, Restated, Overtaken;
    var w0 := Step(table, w, Open(renew, w.book));
    var w1 := w0.(sent := [Hello(w.book), Same(doc, u)]);
    assert Base(w0.have, []) == w0.have;
    BaseOfHello(w0.have, w.book);
    assert [] + [Hello(w.book)] == [Hello(w.book)] && [Hello(w.book)] + [Same(doc, u)] == w1.sent;
    assert Step(table, w0, Send(Hello(w.book))) == w0.(sent := [Hello(w.book)]);
    assert w1 == Step(table, Step(table, w0, Send(Hello(w.book))), Send(Same(doc, u)));
    BothArrive(table, w1, doc, u);
  }

  lemma BaseOfHello(have: map<string, Version>, book: string)
    ensures Base(have, [Hello(book)]) == have
  {
    assert [Hello(book)][..0] == [];
  }

  lemma BothArrive(table: Table, w: World, doc: string, u: Version)
    requires w.sent == [Hello(w.book), Same(doc, u)] && w.delivered == 0 && w.taken == 0 && !w.started && !w.client.live
    requires w.client.book == w.book && doc in w.client.wanted
    ensures var w2 := Step(table, Step(table, w, Deliver(1)), Deliver(2));
            && w2.taken == w2.delivered == 2 && w2.started && w2.book == w.book && w2.asked == w.asked
            && w2.blind == w.blind
            && w2.client.wanted == w.client.wanted[doc := w.client.wanted[doc].(v := Some(u))]
  {
    var w1 := OnDeliver(w, 1);
    assert w1.client.wanted == w.client.wanted && w1.client.last == 1;
  }

  /** Versions are hashes of what they name: what says the same has the same one. */
  ghost predicate Hashed(table: Table) {
    forall book, doc, u, v :: table(book, doc, u) == table(book, doc, v) ==> u == v
  }

  /** The page holds the document, at a version. */
  predicate Holding(w: World, doc: string) {
    doc in w.client.wanted && w.client.wanted[doc].data.Some? && w.client.wanted[doc].v.Some?
  }

  /** What is held of it is the server's of the version held. */
  ghost predicate IsServers(table: Table, w: World, doc: string) {
    Holding(w, doc) && Says(w.client.wanted[doc].data.value) == table(w.book, doc, w.client.wanted[doc].v.value)
  }

  /** The browser makes the connection again by itself, and the server answers that the document is
      the same as its address states: what is held, which was the server's, still is if and only if
      the version held when the connection dropped is the one the address states. */
  lemma AgainRightIff(table: Table, book: string, server: string, keys: map<string, Keys>, es: seq<Event>, doc: string)
    requires server != "" && Hashed(table)
    requires var w := Run(table, Start(book, server, keys), es);
             w.started && Holding(w, doc) && doc !in w.dirty && doc in w.named && doc in w.told
    ensures var w := Run(table, Start(book, server, keys), es);
            var w2 := Run(table, Start(book, server, keys), es + Again(false, w.book, doc, w.told[doc]));
            && w2.started && w2.taken == w2.delivered && w2.asked == w.asked && w2.blind == w.blind && Holding(w2, doc)
            && (IsServers(table, w2, doc) <==> w.client.wanted[doc].v.value == w.told[doc])
  {
    hide Run, Says, Step, Again;
    var w := Run(table, Start(book, server, keys), es);
    RunsAreValid(table, book, server, keys, es);
    ValidHolds(table, w, doc);
    RestatedIs(w, doc);
    SameLeavesIt(table, w, doc, false, w.told[doc]);
    RunAgain(table, Start(book, server, keys), es, false, w.book, doc, w.told[doc]);
  }

  lemma ValidHolds(table: Table, w: World, doc: string)
    requires Valid(table, w) && w.started && Holding(w, doc) && doc !in w.dirty
    ensures w.book != "" && w.client.book == w.book && IsServers(table, w, doc)
    ensures doc in Arrived(w) ==> Arrived(w)[doc] == w.client.wanted[doc].v.value
  {
    hide Says, Sent;
    assert Right(table, w.client.book, Arrived(w), doc, w.client.wanted[doc]);
  }

  lemma RestatedIs(w: World, doc: string)
    requires doc in w.named && doc in w.told
    ensures var have := OnOpen(w, false, w.book).have; doc in have && have[doc] == w.told[doc]
  {
  }

  // ----- edits lost before it

  /** The edits messages make to a document, in order. */
  function EditsOf(msgs: seq<Msg>, doc: string): seq<Op<Doc>> {
    if msgs == [] then []
    else
      EditsOf(msgs[..|msgs| - 1], doc)
      + (if msgs[|msgs| - 1].Patch? && msgs[|msgs| - 1].doc == doc then msgs[|msgs| - 1].ops else [])
  }

  /** Of the document there are only edits among them. */
  ghost predicate OnlyEdits(msgs: seq<Msg>, doc: string) {
    forall j :: 0 <= j < |msgs| && Of(msgs[j], doc) ==> msgs[j].Patch?
  }

  lemma {:induction false} AppliedTwice(d: Doc, a: seq<Op<Doc>>, b: seq<Op<Doc>>)
    ensures AppliedAll(AppliedAll(d, a), b) == AppliedAll(d, a + b)
  {
    if b == [] {
      assert a + b == a;
    } else {
      assert (a + b)[..|a + b| - 1] == a + b[..|b| - 1];
      AppliedTwice(d, a, b[..|b| - 1]);
    }
  }

  /** Made of what the server's document said, they make what it says next. */
  lemma {:induction false} EditsTurn(table: Table, w: World, i: nat, j: nat, doc: string, d: Doc)
    requires Sent(table, w.book, w.have, w.sent) && i <= j <= |w.sent| && OnlyEdits(w.sent[i..j], doc)
    requires var base := Base(w.have, w.sent[..i]); doc in base && Says(d) == table(w.book, doc, base[doc])
    ensures var base := Base(w.have, w.sent[..j]);
            doc in base && Says(AppliedAll(d, EditsOf(w.sent[i..j], doc))) == table(w.book, doc, base[doc])
  {
    hide Says, AppliedAll, Base, EditsOf, OnlyEdits, Honest;
    var msgs := w.sent[i..j];
    if i == j {
      NoEdits(d, doc);
    } else {
      assert msgs[..|msgs| - 1] == w.sent[i..j - 1] && msgs[|msgs| - 1] == w.sent[j - 1];
      assert OnlyEdits(w.sent[i..j - 1], doc) by { FewerEdits(msgs, doc); }
      EditsTurn(table, w, i, j - 1, doc, d);
      assert Of(w.sent[j - 1], doc) ==> w.sent[j - 1].Patch? by { FewerEdits(msgs, doc); }
      assert Honest(table, w.book, Base(w.have, w.sent[..j - 1]), j - 1 == 0, w.sent[j - 1]);
      OneMoreSent(w.have, w.sent, j - 1);
      OneEditTurns(table, w.book, Base(w.have, w.sent[..j - 1]), Base(w.have, w.sent[..j]), j - 1 == 0, msgs, doc, d);
    }
  }

  lemma OneEditTurns(table: Table, book: string, base: map<string, Version>, base': map<string, Version>, first: bool,
    msgs: seq<Msg>, doc: string, d: Doc)
    requires msgs != [] && var m := msgs[|msgs| - 1]; Honest(table, book, base, first, m) && (Of(m, doc) ==> m.Patch?)
    requires base' == match msgs[|msgs| - 1]
                      case Snapshot(k, _, v) => base[k := v]
                      case Same(k, v) => base[k := v]
                      case Patch(k, _, v) => base[k := v]
                      case _ => base
    requires doc in base && Says(AppliedAll(d, EditsOf(msgs[..|msgs| - 1], doc))) == table(book, doc, base[doc])
    ensures doc in base' && Says(AppliedAll(d, EditsOf(msgs, doc))) == table(book, doc, base'[doc])
  {
    hide Says, AppliedAll;
    var m, before := msgs[|msgs| - 1], EditsOf(msgs[..|msgs| - 1], doc);
    if Of(m, doc) {
      TurnsTheHeld(AppliedAll(d, before), table(book, doc, base[doc]), m.ops, table(book, doc, m.v));
      AppliedTwice(d, before, m.ops);
    } else {
      assert before + [] == before;
    }
  }

  lemma FewerEdits(msgs: seq<Msg>, doc: string)
    requires msgs != [] && OnlyEdits(msgs, doc)
    ensures OnlyEdits(msgs[..|msgs| - 1], doc) && (Of(msgs[|msgs| - 1], doc) ==> msgs[|msgs| - 1].Patch?)
  {
    assert forall j :: 0 <= j < |msgs| - 1 ==> msgs[..|msgs| - 1][j] == msgs[j];
  }

  lemma NoEdits(d: Doc, doc: string)
    ensures AppliedAll(d, EditsOf([], doc)) == d
  {
  }

  /** Messages are lost, edits of the document among them, and one more edit of it arrives; then the
      connection drops and is opened anew before the document is sent whole, and the server answers
      that the version held is the same. What is held is the server's of that version if and only if
      the edits lost made no difference to what the last one leaves. */
  lemma LostEditsIff(table: Table, book: string, server: string, keys: map<string, Keys>, es: seq<Event>, n: nat,
      doc: string)
    requires server != ""
    requires var w := Run(table, Start(book, server, keys), es);
             && w.started && Holding(w, doc) && doc !in w.dirty && w.delivered < n <= |w.sent| && doc in Arrived(w)
             && w.sent[n - 1].Patch? && w.sent[n - 1].doc == doc && OnlyEdits(w.sent[w.delivered..n - 1], doc)
    ensures var w := Run(table, Start(book, server, keys), es);
            var m, d := w.sent[n - 1], w.client.wanted[doc].data.value;
            var w2 := Run(table, Start(book, server, keys), es + [Deliver(n)] + Again(true, w.book, doc, m.v));
            && w2.started && Holding(w2, doc) && w2.client.wanted[doc].v.value == m.v
            && (IsServers(table, w2, doc)
                <==> Says(AppliedAll(d, m.ops))
                     == Says(AppliedAll(d, EditsOf(w.sent[w.delivered..n - 1], doc) + m.ops)))
  {
    hide Run, Says, Step, Again, AppliedAll, Sent, EditsOf;
    var w := Run(table, Start(book, server, keys), es);
    var m, d := w.sent[n - 1], w.client.wanted[doc].data.value;
    RunsAreValid(table, book, server, keys, es);
    ValidHolds(table, w, doc);
    LastEditTurns(table, w, n, doc, d);
    RunMore(table, Start(book, server, keys), es, Deliver(n));
    EditArrives(table, w, n, doc);
    var w1 := Step(table, w, Deliver(n));
    HavingIs(w1, doc);
    SameLeavesIt(table, w1, doc, true, m.v);
    RunAgain(table, Start(book, server, keys), es + [Deliver(n)], true, w.book, doc, m.v);
  }

  /** So it is wherever the edit that arrives begins by setting over all that the lost ones were of. */
  lemma LostOverwritten(table: Table, book: string, server: string, keys: map<string, Keys>, es: seq<Event>, n: nat,
      doc: string)
    requires server != ""
    requires var w := Run(table, Start(book, server, keys), es);
             && w.started && Holding(w, doc) && doc !in w.dirty && w.delivered < n <= |w.sent| && doc in Arrived(w)
             && w.sent[n - 1].Patch? && w.sent[n - 1].doc == doc && OnlyEdits(w.sent[w.delivered..n - 1], doc)
             && w.sent[n - 1].ops != [] && w.sent[n - 1].ops[0].Set?
             && AllOverwritten(EditsOf(w.sent[w.delivered..n - 1], doc), w.sent[n - 1].ops[0].path)
    ensures var w := Run(table, Start(book, server, keys), es);
            var m := w.sent[n - 1];
            var w2 := Run(table, Start(book, server, keys), es + [Deliver(n)] + Again(true, w.book, doc, m.v));
            Holding(w2, doc) && w2.client.wanted[doc].v.value == m.v && IsServers(table, w2, doc)
  {
    hide Run, Says, Again, AppliedAll, EditsOf, AllOverwritten, OnlyEdits;
    var w := Run(table, Start(book, server, keys), es);
    var m, d := w.sent[n - 1], w.client.wanted[doc].data.value;
    var lost := EditsOf(w.sent[w.delivered..n - 1], doc);
    LostEditsIff(table, book, server, keys, es, n, doc);
    SetOverAll(d, lost, m.ops[0]);
    FirstOfEdits(AppliedAll(d, lost), m.ops);
    FirstOfEdits(d, m.ops);
    AppliedTwice(d, lost, m.ops);
  }

  lemma FirstOfEdits(d: Doc, ops: seq<Op<Doc>>)
    requires ops != []
    ensures AppliedAll(d, ops) == AppliedAll(Applied(d, ops[0]), ops[1..])
  {
    hide Edit;
    assert [ops[0]] + ops[1..] == ops && [ops[0]][..0] == [];
    assert AppliedAll(d, []) == d && AppliedAll(d, [ops[0]]) == Applied(d, ops[0]);
    AppliedTwice(d, [ops[0]], ops[1..]);
  }

  lemma LastEditTurns(table: Table, w: World, n: nat, doc: string, d: Doc)
    requires Valid(table, w) && w.delivered < n <= |w.sent| && w.sent[n - 1].Patch? && w.sent[n - 1].doc == doc
    requires OnlyEdits(w.sent[w.delivered..n - 1], doc) && doc in Arrived(w)
    requires Says(d) == table(w.book, doc, Arrived(w)[doc])
    ensures var m := w.sent[n - 1];
            Says(AppliedAll(d, EditsOf(w.sent[w.delivered..n - 1], doc) + m.ops)) == table(w.book, doc, m.v)
  {
    hide Says, AppliedAll, EditsOf, AllRight, Base;
    var m, lost := w.sent[n - 1], EditsOf(w.sent[w.delivered..n - 1], doc);
    EditsTurn(table, w, w.delivered, n - 1, doc, d);
    HonestAt(table, w, n);
    TurnsTheHeld(AppliedAll(d, lost), table(w.book, doc, Base(w.have, w.sent[..n - 1])[doc]), m.ops,
        table(w.book, doc, m.v));
    AppliedTwice(d, lost, m.ops);
  }

  lemma EditArrives(table: Table, w: World, n: nat, doc: string)
    requires w.delivered < n <= |w.sent| && w.sent[n - 1].Patch? && w.sent[n - 1].doc == doc && Holding(w, doc)
    requires w.started
    ensures var w1, m := Step(table, w, Deliver(n)), w.sent[n - 1];
            && w1.client.wanted == w.client.wanted[doc := Holder(Some(AppliedAll(w.client.wanted[doc].data.value,
                m.ops)), Some(m.v))]
            && w1.book == w.book && w1.client.book == w.client.book
  {
    hide AppliedAll, Over;
  }

  lemma HavingIs(w: World, doc: string)
    requires Holding(w, doc)
    ensures var have := OnOpen(w, true, w.book).have; doc in have && have[doc] == w.client.wanted[doc].v.value
  {
  }

  // ----- both happen

  /** A document of two fields, and its version. */
  function Written(x: string, y: string, v: Version): Doc {
    Obj(1, map["x" := Leaf(Text(x)), "y" := Leaf(Text(y)), "v" := Leaf(Text(v))])
  }

  function SaysOf(x: string, y: string, v: Version): Plain {
    Object(map["x" := Value(Text(x)), "y" := Value(Text(y)), "v" := Value(Text(v))])
  }

  /** The server's documents: from A to B the first field changes, from B to C the second. */
  const TABLE: Table := (book, doc, v) => SaysOf(if v == "A" then "a" else "b", if v == "C" then "c" else "a", v)

  const TO_B: seq<Op<Doc>> := [Set([To("x")], Leaf(Text("b"))), Set([To("v")], Leaf(Text("B")))]
  const TO_C: seq<Op<Doc>> := [Set([To("y")], Leaf(Text("c"))), Set([To("v")], Leaf(Text("C")))]

  lemma WrittenSays(x: string, y: string, v: Version)
    ensures Says(Written(x, y, v)) == SaysOf(x, y, v)
  {
    var d := Written(x, y, v);
    assert (map k | k in d.fields :: Says(d.fields[k])) == SaysOf(x, y, v).fields;
  }

  lemma TableIsHashed()
    ensures Hashed(TABLE)
  {
    forall book, doc, u, v | TABLE(book, doc, u) == TABLE(book, doc, v) ensures u == v {
      assert TABLE(book, doc, u).fields["v"] == TABLE(book, doc, v).fields["v"];
    }
  }

  lemma SetsOne(d: Doc, name: string, x: Doc)
    requires d.Obj?
    ensures Applied(d, Set([To(name)], x)) == Obj(d.ref, d.fields[name := x])
  {
    assert [To(name)][..0] == [];
  }

  lemma SetsTwo(d: Doc, a: string, x: Doc, b: string, y: Doc)
    requires d.Obj?
    ensures AppliedAll(d, [Set([To(a)], x), Set([To(b)], y)]) == Obj(d.ref, d.fields[a := x][b := y])
  {
    var ops: seq<Op<Doc>> := [Set([To(a)], x), Set([To(b)], y)];
    assert ops[..1] == [ops[0]] && [ops[0]][..0] == [];
    assert AppliedAll(d, []) == d;
    SetsOne(d, a, x);
    SetsOne(Obj(d.ref, d.fields[a := x]), b, y);
  }

  lemma EditsMake(x: string, y: string, v: Version)
    ensures AppliedAll(Written(x, y, v), TO_B) == Written("b", y, "B")
    ensures AppliedAll(Written(x, y, v), TO_C) == Written(x, "c", "C")
  {
    SetsTwo(Written(x, y, v), "x", Leaf(Text("b")), "v", Leaf(Text("B")));
    SetsTwo(Written(x, y, v), "y", Leaf(Text("c")), "v", Leaf(Text("C")));
  }

  lemma EditsTurnTable()
    ensures Turns(TABLE("k", "d", "A"), TO_B, TABLE("k", "d", "B"))
    ensures Turns(TABLE("k", "d", "B"), TO_C, TABLE("k", "d", "C"))
  {
    WrittenSays("a", "a", "A");
    WrittenSays("b", "a", "B");
    WrittenSays("b", "c", "C");
    EditsMake("a", "a", "A");
    EditsMake("b", "a", "B");
    assert Says(Written("a", "a", "A")) == TABLE("k", "d",
        "A") && Says(AppliedAll(Written("a", "a", "A"), TO_B)) == TABLE("k", "d", "B");
    assert Says(Written("b", "a", "B")) == TABLE("k", "d",
        "B") && Says(AppliedAll(Written("b", "a", "B"), TO_C)) == TABLE("k", "d", "C");
  }

  const EDIT_B := Patch("d", TO_B, "B")
  const EDIT_C := Patch("d", TO_C, "C")
  const BEGUN := Start("k", "k", map[])

  /** A page shows what it kept of the document at A, connects, and is sent the edit to B. */
  function Opening(): seq<Event> {
    [Show("d", Some((Written("a", "a", "A"), Some("A")))), Open(true, "k"), Send(Hello("k")), Deliver(1), Send(EDIT_B)]
  }

  function Opened(): World {
    World(Client(1, true, "k", map["d" := Holder(Some(Written("a", "a", "A")), Some("A"))], map[]), "k", {"d"},
        map["d" := "A"],
          map["d" := "A"], [Hello("k"), EDIT_B], 1, 1, true, false, false, false, {})
  }

  function Shown(): World {
    BEGUN.(client := BEGUN.client.(wanted := map["d" := Holder(Some(Written("a", "a", "A")), Some("A"))]),
        have := map["d" := "A"])
  }

  lemma ShowsKept()
    ensures Step(TABLE, BEGUN, Show("d", Some((Written("a", "a", "A"), Some("A"))))) == Shown()
  {
    WrittenSays("a", "a", "A");
  }

  lemma ConnectsWith()
    ensures var w := Step(TABLE, Shown(), Open(true, "k"));
            w == Shown().(named := {"d"}, told := map["d" := "A"])
  {
    assert Having(Shown().client.wanted) == map["d" := "A"];
    assert Shown().client.wanted.Keys == {"d"};
  }

  lemma HearsHello()
    ensures var w := Shown().(named := {"d"}, told := map["d" := "A"]);
            Step(TABLE, Step(TABLE, w, Send(Hello("k"))), Deliver(1)) == Opened().(sent := [Hello("k")])
  {
    var w := Shown().(named := {"d"}, told := map["d" := "A"]);
    assert Step(TABLE, w, Send(Hello("k"))) == w.(sent := [Hello("k")]) by { assert [] + [Hello("k")] == [Hello("k")]; }
  }

  lemma IsSent(w: World, m: Msg)
    requires Honest(TABLE, w.book, Base(w.have, w.sent), w.sent == [], m)
    ensures Step(TABLE, w, Send(m)) == w.(sent := w.sent + [m])
  {
  }

  lemma RunFive(table: Table, w: World, a: Event, b: Event, c: Event, d: Event, e: Event)
    ensures Run(table, w, [a, b, c, d, e]) == Step(table,
        Step(table, Step(table, Step(table, Step(table, w, a), b), c), d), e)
  {
    hide Step;
    RunMore(table, w, [], a);
    RunMore(table, w, [a], b);
    RunMore(table, w, [a, b], c);
    RunMore(table, w, [a, b, c], d);
    RunMore(table, w, [a, b, c, d], e);
    assert [] + [a] == [a] && [a] + [b] == [a, b] && [a, b] + [c] == [a, b, c];
    assert [a, b, c] + [d] == [a, b, c, d] && [a, b, c, d] + [e] == [a, b, c, d, e];
  }

  lemma EditIsSent()
    ensures Step(TABLE, Opened().(sent := [Hello("k")]), Send(EDIT_B)) == Opened()
  {
    hide Turns;
    EditsTurnTable();
    BaseOfHello(map["d" := "A"], "k");
    var w := Opened().(sent := [Hello("k")]);
    IsSent(w, EDIT_B);
    assert w.sent + [EDIT_B] == Opened().sent;
  }

  lemma OpensSo()
    ensures Run(TABLE, BEGUN, Opening()) == Opened()
  {
    hide Step, Run;
    ShowsKept();
    ConnectsWith();
    HearsHello();
    EditIsSent();
    RunFive(TABLE, BEGUN, Show("d", Some((Written("a", "a", "A"), Some("A")))), Open(true, "k"), Send(Hello("k")),
        Deliver(1), Send(EDIT_B));
  }

  /** The edit to B is taken; the connection drops, the document goes back to what it was, and the
      browser connects again by itself: nothing was lost, nothing asked for, and the page holds B under
      the version of A. */
  lemma AgainIsWrong()
    ensures var w := Run(TABLE, BEGUN, Opening() + [Deliver(2)] + Again(false, "k", "d", "A"));
            w.started && !w.asked && !w.blind && w.taken == w.delivered && Holding(w, "d") && !IsServers(TABLE, w, "d")
  {
    hide Run, Step, Says, AppliedAll, Again;
    OpensSo();
    TableIsHashed();
    RunMore(TABLE, BEGUN, Opening(), Deliver(2));
    TakesEdit(Opened());
    AgainRightIff(TABLE, "k", "k", map[], Opening() + [Deliver(2)], "d");
  }

  lemma TakesEdit(w: World)
    requires w == Opened()
    ensures var w1 := Step(TABLE, w, Deliver(2));
            && w1.started && Holding(w1,
                "d") && w1.client.wanted["d"].v == Some("B") && w1.dirty == {}
            && w1.named == w.named && w1.told == w.told
            && w1.book == "k" && !w1.asked && !w1.blind
  {
    hide AppliedAll;
  }

  /** The edit to B is lost and the one to C taken; the connection drops before the whole document
      comes, and is opened anew: the page holds under the version of C what no version says. */
  lemma LostIsWrong()
    ensures var w := Run(TABLE, BEGUN, Opening() + [Send(EDIT_C)] + [Deliver(3)] + Again(true, "k", "d", "C"));
            w.started && Holding(w, "d") && w.client.wanted["d"].v == Some("C") && !IsServers(TABLE, w, "d")
  {
    hide Run, Step, Says, AppliedAll, Again;
    OpensSo();
    RunMore(TABLE, BEGUN, Opening(), Send(EDIT_C));
    EditsTurnTable();
    BaseOfHello(map["d" := "A"], "k");
    BothSent();
    IsSent(Opened(), EDIT_C);
    var w := Opened().(sent := [Hello("k"), EDIT_B, EDIT_C]);
    assert Opened().sent + [EDIT_C] == w.sent;
    assert w.sent[1..2] == [EDIT_B] && w.sent[..1] == [Hello("k")];
    EditsOfOne();
    LostDiffers();
    LostEditsIff(TABLE, "k", "k", map[], Opening() + [Send(EDIT_C)], 3, "d");
  }

  lemma BothSent()
    ensures Base(map["d" := "A"], [Hello("k"), EDIT_B]) == map["d" := "B"]
  {
    BaseOfHello(map["d" := "A"], "k");
    assert [Hello("k"), EDIT_B][..1] == [Hello("k")];
  }

  lemma EditsOfOne()
    ensures EditsOf([EDIT_B], "d") == TO_B
  {
    assert [EDIT_B][..0] == [];
  }

  lemma LostDiffers()
    ensures Says(AppliedAll(Written("a", "a", "A"), TO_C)) != Says(AppliedAll(Written("a", "a", "A"), TO_B + TO_C))
  {
    hide AppliedAll, Says;
    var d := Written("a", "a", "A");
    AppliedTwice(d, TO_B, TO_C);
    EditsMake("a", "a", "A");
    EditsMake("b", "a", "B");
    WrittenSays("a", "c", "C");
    WrittenSays("b", "c", "C");
    assert SaysOf("a", "c", "C").fields["x"] != SaysOf("b", "c", "C").fields["x"];
  }
}
