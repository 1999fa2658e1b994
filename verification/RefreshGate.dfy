/** Refreshing the broker login: callers pass a gate one at a time, because each grant rotates
    the refresh token and a token posted twice would end the login. */
module RefreshGate {
  import opened Trading

  type Token = string

  // ----- the gate

  datatype Gate = Gate(busy: bool, waiters: seq<nat>, refused: Token)

  function EnterGate(g: Gate, c: nat): Gate {
    if !g.busy then g.(busy := true) else g.(waiters := g.waiters + [c])
  }

  function LeaveGate(g: Gate): Gate {
    if g.waiters == [] then g.(busy := false) else g.(waiters := g.waiters[1..])
  }

  /** The actor: whoever finds it free goes in, the others wait in line. */
  class Actor {
    var busy: bool
    var waiters: seq<nat>
    var refusedToken: Token

    ghost function View(): Gate
      reads this
    {
      Gate(busy, waiters, refusedToken)
    }

    constructor ()
      ensures View() == Gate(false, [], "")
    {
      busy, waiters, refusedToken := false, [], "";
    }

    method Enter(c: nat) returns (entered: bool)
      modifies this
      ensures View() == EnterGate(old(View()), c)
      ensures entered == !old(busy)
    {
      entered := !busy;
      if !busy {
        busy := true;
      } else {
        waiters := waiters + [c];
      }
    }

    /** The longest waiter is let in, if there is one. */
    method Leave() returns (next: Option<nat>)
      modifies this
      ensures View() == LeaveGate(old(View()))
      ensures next == if old(waiters) == [] then None else Some(old(waiters)[0])
    {
      if waiters == [] {
        busy, next := false, None;
      } else {
        next, waiters := Some(waiters[0]), waiters[1..];
      }
    }

    /** The token the server refused is remembered; who is in the gate, and who waits, stay. */
    method Refuse(token: Token)
      modifies this
      ensures View() == old(View()).(refused := token)
    {
      refusedToken := token;
    }
  }

  // ----- the callers

  datatype Login = Login(access: Token, refresh: Token, client: string)

  predicate Complete(l: Login) {
    l.access != "" && l.refresh != ""
  }

  /** Where a caller is: outside, about to enter, in line, inside with the keychain to look at,
      inside with the refused token to ask for, awaiting the answer, or about to leave. */
  datatype Pc = Out | Wanting | Waiting | Looking | Asking | Posting | Leaving

  datatype Caller = Caller(pc: Pc, box: nat, rt: Token)

  /** A post: the token, whether the server had rotated it away by then, and whether it was
      refused before, the keychain holding it ever since. */
  datatype Post = Post(token: Token, stale: bool, again: bool)

  /** Everything shared, and what has happened: who arrived at the gate, went in, and left. */
  datatype World = World(
    gate: Gate, callers: map<nat, Caller>, boxes: map<nat, Login>, keychain: Option<Login>,
    valid: Token, rotated: set<Token>,
    holder: Option<nat>, arrived: seq<nat>, entered: seq<nat>, left: seq<nat>,
    posts: seq<Post>, dead: Option<Token>)

  datatype Reply = Granted(access: Token, refresh: Token) | Invalid | Failed | Lost(refresh: Token)

  datatype Event = Call(c: nat, box: nat) | Enter(c: nat) | Look(c: nat) | Ask(c: nat) | Answer(c: nat,
      reply: Reply) | Leave(c: nat)

  predicate At(w: World, c: nat, pc: Pc) {
    c in w.callers && w.callers[c].pc == pc && w.callers[c].box in w.boxes
  }

  function Move(w: World, c: nat, pc: Pc): World
    requires c in w.callers
  {
    w.(callers := w.callers[c := w.callers[c].(pc := pc)])
  }

  /** The saved login another caller has rotated meanwhile. */
  function Adoptable(w: World, rt: Token): Option<Login> {
    if w.keychain.Some? && Complete(w.keychain.value) && w.keychain.value.refresh != rt then w.keychain else None
  }

  /** What the server can answer to a post of `rt`: a grant only for the valid token; a grant's
      new token, if it brings one, is one never seen; `Lost` is a grant whose answer does not arrive. */
  predicate CanReply(w: World, rt: Token, r: Reply) {
    match r
    case Granted(access, refresh) => rt == w.valid && access != "" && (refresh == "" || Fresh(w, refresh))
    case Lost(refresh) => rt == w.valid && refresh != "" && Fresh(w, refresh)
    case _ => true
  }

  /** A token never seen: not the valid one, not one rotated away, and none anyone holds. */
  predicate Fresh(w: World, refresh: Token) {
    && refresh !in w.rotated && refresh != w.valid
    && (w.keychain.Some? ==> w.keychain.value.refresh != refresh)
    && (forall b :: b in w.boxes ==> w.boxes[b].refresh != refresh)
    && (forall c :: c in w.callers ==> w.callers[c].rt != refresh)
  }

  /** The server after it granted `refresh`: the token before it is good no more. */
  function Rotate(w: World, refresh: Token): World {
    if refresh == "" then w else w.(valid := refresh, rotated := w.rotated + {w.valid})
  }

  function OnCall(w: World, c: nat, box: nat): World
    requires c in w.callers && box in w.boxes
  {
    var rt := w.boxes[box].refresh;
    if rt == "" then w else w.(callers := w.callers[c := Caller(Wanting, box, rt)])
  }

  function OnEnter(w: World, c: nat): World
    requires c in w.callers
  {
    var w1 := w.(gate := EnterGate(w.gate, c), arrived := w.arrived + [c]);
    if !w.gate.busy then Move(w1.(holder := Some(c), entered := w.entered + [c]), c, Looking)
    else Move(w1, c, Waiting)
  }

  function OnLook(w: World, c: nat): World
    requires c in w.callers
  {
    match Adoptable(w, w.callers[c].rt)
    case Some(l) => Move(w.(boxes := w.boxes[w.callers[c].box := l]), c, Leaving)
    case None => Move(w, c, Asking)
  }

  function OnAsk(w: World, c: nat): World
    requires At(w, c, Asking)
  {
    var rt := w.callers[c].rt;
    if w.gate.refused == rt || w.boxes[w.callers[c].box].client == "" then Move(w, c, Leaving)
    else Move(w.(posts := w.posts + [Post(rt, rt in w.rotated, w.dead == Some(rt))]), c, Posting)
  }

  function OnAnswer(w: World, c: nat, r: Reply): World
    requires At(w, c, Posting)
  {
    var me := w.callers[c];
    match r
    case Granted(access, refresh) =>
      var was := w.boxes[me.box];
      var l := was.(access := access, refresh := if refresh != "" then refresh else was.refresh);
      Move(Rotate(w, refresh).(boxes := w.boxes[me.box := l], keychain := Some(l), dead := None), c, Leaving)
    case Lost(refresh) => Move(Rotate(w, refresh), c, Leaving)
    case Failed => Move(w, c, Leaving)
    case Invalid =>
      var held := w.keychain.Some? && w.keychain.value.refresh == me.rt;
      Move(w.(gate := w.gate.(refused := me.rt), dead := if held then Some(me.rt) else w.dead), c, Leaving)
  }

  function OnLeave(w: World, c: nat): World
    requires c in w.callers
  {
    var w1 := Move(w.(gate := LeaveGate(w.gate), left := w.left + [c]), c, Out);
    if w.gate.waiters == [] then w1.(holder := None)
    else
      var next := w.gate.waiters[0];
      if next in w1.callers then Move(w1.(holder := Some(next), entered := w.entered + [next]), next, Looking) else w1
  }

  /** One step of one caller, where it can take it. */
  function Step(w: World, e: Event): World {
    match e
    case Call(c, box) => if At(w, c, Out) && box in w.boxes then OnCall(w, c, box) else w
    case Enter(c) => if At(w, c, Wanting) then OnEnter(w, c) else w
    case Look(c) => if At(w, c, Looking) then OnLook(w, c) else w
    case Ask(c) => if At(w, c, Asking) then OnAsk(w, c) else w
    case Answer(c, r) => if At(w, c, Posting) && CanReply(w, w.callers[c].rt, r) then OnAnswer(w, c, r) else w
    case Leave(c) => if At(w, c, Leaving) then OnLeave(w, c) else w
  }

  /** Any interleaving of the callers' steps. */
  function Run(w: World, es: seq<Event>): World {
    if es == [] then w else Step(Run(w, es[..|es| - 1]), es[|es| - 1])
  }

  // ----- mutual exclusion, order, and leaving exactly once

  predicate Inside(pc: Pc) {
    pc.Looking? || pc.Asking? || pc.Posting? || pc.Leaving?
  }

  ghost predicate Exclusive(w: World) {
    && w.gate.busy == w.holder.Some?
    && (w.holder.Some? ==> w.holder.value in w.callers)
    && (forall c :: c in w.callers ==> (Inside(w.callers[c].pc) <==> w.holder == Some(c)))
    && (w.gate.waiters != [] ==> w.gate.busy)
    && (forall i :: 0 <= i < |w.gate.waiters| ==>
          w.gate.waiters[i] in w.callers && w.callers[w.gate.waiters[i]].pc == Waiting)
    && (forall i, j :: 0 <= i < j < |w.gate.waiters| ==> w.gate.waiters[i] != w.gate.waiters[j])
  }

  /** Who went in is who arrived, in that order, but for those still in line; who left is who
      went in, in that order, but for the one still inside. */
  ghost predicate InOrder(w: World) {
    && w.arrived == w.entered + w.gate.waiters
    && w.entered == w.left + (if w.holder.Some? then [w.holder.value] else [])
  }

  ghost predicate Gated(w: World) {
    Exclusive(w) && InOrder(w)
  }

  lemma InsideMoves(w: World, w': World, c: nat, pc: Pc)
    requires Gated(w) && c in w.callers && Inside(w.callers[c].pc) && Inside(pc)
    requires w'.callers == w.callers[c := w.callers[c].(pc := pc)]
    requires w'.gate.busy == w.gate.busy && w'.gate.waiters == w.gate.waiters && w'.holder == w.holder
    requires w'.arrived == w.arrived && w'.entered == w.entered && w'.left == w.left
    ensures Gated(w')
  {
  }

  lemma EnterGates(w: World, c: nat)
    requires Gated(w) && At(w, c, Wanting)
    ensures Gated(OnEnter(w, c))
  {
    var w' := OnEnter(w, c);
    if w.gate.busy {
      assert w.arrived + [c] == w.entered + (w.gate.waiters + [c]);
    } else {
      assert w.gate.waiters == [] && w.left + [] == w.left;
    }
  }

  lemma LeaveGates(w: World, c: nat)
    requires Gated(w) && At(w, c, Leaving)
    ensures Gated(OnLeave(w, c))
  {
    var w' := OnLeave(w, c);
    assert w.holder == Some(c);
    if w.gate.waiters != [] {
      var next := w.gate.waiters[0];
      assert next != c;
      assert w.entered + w.gate.waiters == (w.entered + [next]) + w.gate.waiters[1..];
    } else {
      assert w.left + [c] + [] == w.left + [c];
    }
  }

  lemma StepGates(w: World, e: Event)
    requires Gated(w)
    ensures Gated(Step(w, e))
  {
    hide OnEnter, OnLeave, Gated, CanReply;
    match e
    case Call(c, box) => if At(w, c, Out) && box in w.boxes { CallGates(w, c, box); }
    case Enter(c) => if At(w, c, Wanting) { EnterGates(w, c); }
    case Look(c) => if At(w, c, Looking) { InsideMoves(w, OnLook(w, c), c, OnLook(w, c).callers[c].pc); }
    case Ask(c) => if At(w, c, Asking) { InsideMoves(w, OnAsk(w, c), c, OnAsk(w, c).callers[c].pc); }
    case Answer(c, r) => if At(w, c, Posting) { InsideMoves(w, OnAnswer(w, c, r), c, Leaving); }
    case Leave(c) => if At(w, c, Leaving) { LeaveGates(w, c); }
  }

  lemma CallGates(w: World, c: nat, box: nat)
    requires Gated(w) && At(w, c, Out) && box in w.boxes
    ensures Gated(OnCall(w, c, box))
  {
  }

  /** Before anyone calls: nobody inside, nobody waiting, nothing posted or refused. */
  ghost predicate Initial(w: World) {
    && w.gate == Gate(false, [], "") && w.holder == None && w.arrived == [] && w.entered == [] && w.left == []
    && w.posts == [] && w.dead == None
    && (forall c :: c in w.callers ==> w.callers[c].pc == Out && w.callers[c].box in w.boxes)
  }

  lemma {:induction false} RunGates(w: World, es: seq<Event>)
    requires Initial(w)
    ensures Gated(Run(w, es))
  {
    hide Step;
    if es != [] {
      RunGates(w, es[..|es| - 1]);
      StepGates(Run(w, es[..|es| - 1]), es[|es| - 1]);
    }
  }

  /** Under every interleaving at most one caller is inside; callers go in in the order they
      arrived; and every caller that went in has left exactly once, but the one still inside. */
  lemma GateIsSafe(w: World, es: seq<Event>, c: nat, d: nat)
    requires Initial(w)
    ensures var s := Run(w, es);
            && (c in s.callers && d in s.callers && Inside(s.callers[c].pc) && Inside(s.callers[d].pc) ==> c == d)
            && s.arrived == s.left + (if s.holder.Some? then [s.holder.value] else []) + s.gate.waiters
            && (c in s.callers && Inside(s.callers[c].pc) <==> s.holder == Some(c))
  {
    hide Run;
    RunGates(w, es);
  }

  // ----- the rotating token

  /** The keychain holds a whole login. */
  ghost predicate Saved(w: World) {
    w.keychain.Some? && Complete(w.keychain.value)
  }

  /** A caller past the look at the keychain holds the keychain's own token, and its box still
      has one. */
  ghost predicate Synced(w: World) {
    && Saved(w)
    && (forall c :: c in w.callers && (w.callers[c].pc == Asking || w.callers[c].pc == Posting) ==>
          w.callers[c].rt == w.keychain.value.refresh)
    && (forall c :: c in w.callers && w.callers[c].pc != Out ==> w.callers[c].rt != "")
    && (w.dead.Some? ==> w.dead.value == w.gate.refused == w.keychain.value.refresh)
    && (forall i :: 0 <= i < |w.posts| ==> !w.posts[i].again)
  }

  /** A box loses its token to nobody. */
  ghost predicate Boxed(w: World) {
    && (forall c :: c in w.callers ==> w.callers[c].box in w.boxes)
    && (forall c :: c in w.callers && w.callers[c].pc != Out ==> w.boxes[w.callers[c].box].refresh != "")
  }

  lemma CallSyncs(w: World, c: nat, box: nat)
    requires Synced(w) && Boxed(w) && At(w, c, Out) && box in w.boxes
    ensures Synced(OnCall(w, c, box)) && Boxed(OnCall(w, c, box))
  {
  }

  lemma EnterSyncs(w: World, c: nat)
    requires Synced(w) && Boxed(w) && At(w, c, Wanting)
    ensures Synced(OnEnter(w, c)) && Boxed(OnEnter(w, c))
  {
  }

  lemma LookSyncs(w: World, c: nat)
    requires Synced(w) && Boxed(w) && At(w, c, Looking)
    ensures Synced(OnLook(w, c)) && Boxed(OnLook(w, c))
  {
  }

  lemma AskSyncs(w: World, c: nat)
    requires Synced(w) && Boxed(w) && At(w, c, Asking)
    ensures Synced(OnAsk(w, c)) && Boxed(OnAsk(w, c))
  {
    var p := OnAsk(w, c).posts;
    forall i | 0 <= i < |p| ensures !p[i].again {
      if i < |w.posts| {
        assert p[i] == w.posts[i];
      }
    }
  }

  lemma LeaveSyncs(w: World, c: nat)
    requires Gated(w) && Synced(w) && Boxed(w) && At(w, c, Leaving)
    ensures Synced(OnLeave(w, c)) && Boxed(OnLeave(w, c))
  {
    if w.gate.waiters != [] {
      assert w.gate.waiters[0] in w.callers && w.callers[w.gate.waiters[0]].pc == Waiting;
    }
  }

  lemma StepSyncs(w: World, e: Event)
    requires Gated(w) && Synced(w) && Boxed(w)
    ensures Synced(Step(w, e)) && Boxed(Step(w, e))
  {
    hide Gated, Synced, Boxed, OnCall, OnEnter, OnLook, OnAsk, OnAnswer, OnLeave;
    match e
    case Call(c, box) => if At(w, c, Out) && box in w.boxes { CallSyncs(w, c, box); }
    case Enter(c) => if At(w, c, Wanting) { EnterSyncs(w, c); }
    case Look(c) => if At(w, c, Looking) { LookSyncs(w, c); }
    case Ask(c) => if At(w, c, Asking) { AskSyncs(w, c); }
    case Answer(c, r) => if At(w, c, Posting) && CanReply(w, w.callers[c].rt, r) { AnswerSyncs(w, c, r); }
    case Leave(c) => if At(w, c, Leaving) { LeaveSyncs(w, c); }
  }

  /** Nobody else is past the look while an answer is awaited. */
  lemma AnswerSyncs(w: World, c: nat, r: Reply)
    requires Gated(w) && Synced(w) && Boxed(w) && At(w, c, Posting) && (r.Granted? ==> r.access != "")
    ensures Synced(OnAnswer(w, c, r)) && Boxed(OnAnswer(w, c, r))
  {
    InsideHolds(w, c);
  }

  lemma InsideHolds(w: World, c: nat)
    requires Gated(w) && c in w.callers && Inside(w.callers[c].pc)
    ensures w.holder == Some(c)
  {
  }

  lemma {:induction false} RunSyncs(w: World, es: seq<Event>)
    requires Initial(w) && Saved(w)
    ensures Synced(Run(w, es)) && Boxed(Run(w, es))
  {
    hide Step, Gated, Synced, Boxed;
    if es == [] {
      StartSyncs(w);
    } else {
      RunGates(w, es[..|es| - 1]);
      RunSyncs(w, es[..|es| - 1]);
      StepSyncs(Run(w, es[..|es| - 1]), es[|es| - 1]);
    }
  }

  lemma StartSyncs(w: World)
    requires Initial(w) && Saved(w)
    ensures Synced(w) && Boxed(w)
  {
  }

  /** Under every interleaving, whatever the server answers: a token refused as invalid is not
      posted again while the keychain holds it. */
  lemma RefusedIsNotPostedAgain(w: World, es: seq<Event>, i: nat)
    requires Initial(w) && Saved(w) && i < |Run(w, es).posts|
    ensures !Run(w, es).posts[i].again
  {
    hide Run, Boxed;
    RunSyncs(w, es);
  }

  // ----- no token is posted that was rotated away

  /** Where the keychain holds what a caller posts, so does the caller's box. */
  ghost predicate Linked(w: World) {
    forall c :: c in w.callers && w.callers[c].pc != Out && w.keychain.Some?
                && w.keychain.value.refresh == w.callers[c].rt ==>
      w.callers[c].box in w.boxes && w.boxes[w.callers[c].box].refresh == w.callers[c].rt
  }

  lemma AnswerLinks(w: World, c: nat, r: Reply)
    requires Gated(w) && Synced(w) && Boxed(w) && Linked(w) && At(w, c, Posting) && CanReply(w, w.callers[c].rt, r)
    ensures Linked(OnAnswer(w, c, r))
    ensures r.Granted? && r.refresh == "" ==> OnAnswer(w, c, r).keychain.value.refresh == w.keychain.value.refresh
  {
  }

  lemma LeaveLinks(w: World, c: nat)
    requires Gated(w) && Linked(w) && Boxed(w) && At(w, c, Leaving)
    ensures Linked(OnLeave(w, c))
  {
    if w.gate.waiters != [] {
      assert w.gate.waiters[0] in w.callers && w.callers[w.gate.waiters[0]].pc == Waiting;
    }
  }

  lemma StepLinks(w: World, e: Event)
    requires Gated(w) && Synced(w) && Boxed(w) && Linked(w)
    ensures Linked(Step(w, e))
  {
    hide Gated, Exclusive, InOrder, OnAnswer, OnLeave;
    match e
    case Answer(c, r) => if At(w, c, Posting) && CanReply(w, w.callers[c].rt, r) { AnswerLinks(w, c, r); }
    case Leave(c) => if At(w, c, Leaving) { LeaveLinks(w, c); }
    case _ =>
  }

  lemma {:induction false} RunLinks(w: World, es: seq<Event>)
    requires Initial(w) && Saved(w)
    ensures Linked(Run(w, es))
  {
    hide Step, Gated, Synced, Boxed;
    if es != [] {
      RunGates(w, es[..|es| - 1]);
      RunSyncs(w, es[..|es| - 1]);
      RunLinks(w, es[..|es| - 1]);
      StepLinks(Run(w, es[..|es| - 1]), es[|es| - 1]);
    }
  }

  /** The server grants and its answer does not arrive. */
  predicate Loses(w: World, e: Event) {
    e.Answer? && e.reply.Lost? && At(w, e.c, Posting) && CanReply(w, w.callers[e.c].rt, e.reply)
  }

  /** The saved login is one the server has rotated away. */
  ghost predicate Stranded(w: World) {
    Saved(w) && w.keychain.value.refresh != w.valid && w.keychain.value.refresh in w.rotated
  }

  /** The posts after a step: one more where a caller asks and posts, of the keychain's own token. */
  lemma StepPosts(w: World, e: Event)
    requires Gated(w) && Synced(w) && Boxed(w)
    ensures var p := Step(w, e).posts;
            p == w.posts || (!e.Answer? && |p| == |w.posts| + 1 && p[..|w.posts|] == w.posts
                             && (p[|w.posts|].stale <==> w.keychain.value.refresh in w.rotated))
  {
    hide Gated, Exclusive, InOrder, OnEnter, OnAnswer, Boxed;
    if e.Ask? && At(w, e.c, Asking) {
      assert OnAsk(w, e.c).posts == w.posts || OnAsk(w, e.c).posts[..|w.posts|] == w.posts;
    }
    if e.Answer? && At(w, e.c, Posting) && CanReply(w, w.callers[e.c].rt, e.reply) {
      AnswerPosts(w, e.c, e.reply);
    }
    if e.Enter? && At(w, e.c, Wanting) {
      EnterPosts(w, e.c);
    }
  }

  lemma AnswerPosts(w: World, c: nat, r: Reply)
    requires At(w, c, Posting)
    ensures OnAnswer(w, c, r).posts == w.posts
  {
  }

  lemma EnterPosts(w: World, c: nat)
    requires At(w, c, Wanting)
    ensures OnEnter(w, c).posts == w.posts
  {
  }

  /** A step keeps the saved login current, or strands it: exactly where a grant is lost. */
  lemma StepStrandsIff(w: World, e: Event)
    requires Gated(w) && Synced(w) && Boxed(w) && Linked(w)
    ensures Synced(Step(w, e))
    ensures Stranded(w) ==> Stranded(Step(w, e))
    ensures InTouch(w) ==> if Loses(w, e) then Stranded(Step(w, e)) else InTouch(Step(w, e))
  {
    hide Gated, Exclusive, InOrder, OnAnswer, OnLeave;
    StepSyncs(w, e);
    match e
    case Answer(c, r) => if At(w, c, Posting) && CanReply(w, w.callers[c].rt, r) { AnswerStrandsIff(w, c, r); }
    case Leave(c) => if At(w, c, Leaving) { LeaveSaves(w, c); }
    case _ =>
  }

  /** The saved login is the one the server takes. */
  ghost predicate InTouch(w: World) {
    Saved(w) && w.keychain.value.refresh == w.valid && w.valid !in w.rotated
  }

  lemma AnswerStrandsIff(w: World, c: nat, r: Reply)
    requires Synced(w) && Boxed(w) && Linked(w) && Gated(w) && At(w, c, Posting) && CanReply(w, w.callers[c].rt, r)
    ensures Stranded(w) ==> Stranded(OnAnswer(w, c, r))
    ensures InTouch(w) ==> if r.Lost? then Stranded(OnAnswer(w, c, r)) else InTouch(OnAnswer(w, c, r))
  {
    hide Gated, Boxed;
    assert w.callers[c].rt == w.keychain.value.refresh;
  }

  lemma LeaveSaves(w: World, c: nat)
    requires At(w, c, Leaving)
    ensures var l := OnLeave(w, c); l.keychain == w.keychain && l.valid == w.valid && l.rotated == w.rotated
  {
  }

  /** Some grant of the run so far was lost. */
  ghost predicate LostBy(w: World, es: seq<Event>) {
    exists k :: 0 <= k < |es| && Loses(Run(w, es[..k]), es[k])
  }

  lemma LostByMore(w: World, es: seq<Event>)
    requires es != []
    ensures LostBy(w, es) <==> LostBy(w, es[..|es| - 1]) || Loses(Run(w, es[..|es| - 1]), es[|es| - 1])
  {
    hide Run, Loses;
    var init := es[..|es| - 1];
    if LostBy(w, es) {
      var k :| 0 <= k < |es| && Loses(Run(w, es[..k]), es[k]);
      if k < |init| {
        assert init[..k] == es[..k] && init[k] == es[k];
      }
    }
    if LostBy(w, init) {
      var k :| 0 <= k < |init| && Loses(Run(w, init[..k]), init[k]);
      assert init[..k] == es[..k] && init[k] == es[k];
    }
  }

  lemma {:induction false} RunStrandsIff(w: World, es: seq<Event>)
    requires Initial(w) && InTouch(w)
    ensures if LostBy(w, es) then Stranded(Run(w, es)) else InTouch(Run(w, es))
  {
    hide Step, Gated, Synced, Boxed, Linked, InTouch, Stranded, Loses, LostBy;
    TouchIsSaved(w);
    if es == [] {
      assert !LostBy(w, es) by { NothingLost(w); }
    } else {
      var init := es[..|es| - 1];
      RunGates(w, init);
      RunSyncs(w, init);
      RunLinks(w, init);
      RunStrandsIff(w, init);
      LostByMore(w, es);
      StepStrandsIff(Run(w, init), es[|es| - 1]);
    }
  }

  lemma NothingLost(w: World)
    ensures !LostBy(w, [])
  {
  }

  lemma TouchIsSaved(w: World)
    requires InTouch(w)
    ensures Saved(w)
  {
  }

  /** Under every interleaving: a caller posts a token the server has rotated away if and only if a
      grant before it was lost on the way. A post made by the first `k` events is among the first so
      many posts. */
  lemma {:induction false} StaleIffLost(w: World, es: seq<Event>, i: nat)
    requires Initial(w) && InTouch(w) && w.posts == [] && i < |Run(w, es).posts|
    ensures Run(w, es).posts[i].stale
            <==> exists k :: 0 <= k < |es| && Loses(Run(w, es[..k]), es[k]) && |Run(w, es[..k]).posts| <= i
  {
    hide Step, Gated, Synced, Boxed, Linked, InTouch, Stranded, Loses;
    if es != [] {
      var init, e := es[..|es| - 1], es[|es| - 1];
      var s := Run(w, init);
      TouchIsSaved(w);
      RunGates(w, init);
      RunSyncs(w, init);
      StepPosts(s, e);
      if i < |s.posts| {
        StaleIffLost(w, init, i);
        assert Run(w, es).posts[i] == s.posts[i] by { assert i < |Run(w, es).posts[..|s.posts|]|; }
        SameLosses(w, es, i);
      } else {
        assert !e.Answer?;
        assert i == |s.posts|;
        RunStrandsIff(w, init);
        SeesRotated(s);
        LossesBefore(w, es, i);
      }
    }
  }

  lemma SeesRotated(w: World)
    requires Synced(w)
    ensures Stranded(w) ==> w.keychain.value.refresh in w.rotated
    ensures InTouch(w) ==> w.keychain.value.refresh !in w.rotated
  {
  }

  /** A loss before post `i` is one before the last event, which the post is made without. */
  ghost predicate LostBefore(w: World, es: seq<Event>, i: nat) {
    exists k :: 0 <= k < |es| && Loses(Run(w, es[..k]), es[k]) && |Run(w, es[..k]).posts| <= i
  }

  lemma SameLosses(w: World, es: seq<Event>, i: nat)
    requires es != [] && i < |Run(w, es[..|es| - 1]).posts|
    ensures LostBefore(w, es, i) <==> LostBefore(w, es[..|es| - 1], i)
  {
    hide Run, Loses;
    var init := es[..|es| - 1];
    if LostBefore(w, es, i) {
      var k :| 0 <= k < |es| && Loses(Run(w, es[..k]), es[k]) && |Run(w, es[..k]).posts| <= i;
      assert k < |init|;
      assert init[..k] == es[..k] && init[k] == es[k];
    }
    if LostBefore(w, init, i) {
      var k :| 0 <= k < |init| && Loses(Run(w, init[..k]), init[k]) && |Run(w, init[..k]).posts| <= i;
      assert init[..k] == es[..k] && init[k] == es[k];
    }
  }

  lemma LossesBefore(w: World, es: seq<Event>, i: nat)
    requires Initial(w) && Saved(w) && es != [] && !es[|es| - 1].Answer? && i == |Run(w, es[..|es| - 1]).posts|
    ensures LostBefore(w, es, i) <==> LostBy(w, es[..|es| - 1])
  {
    hide Run, Initial;
    var init := es[..|es| - 1];
    if LostBefore(w, es, i) {
      var k :| 0 <= k < |es| && Loses(Run(w, es[..k]), es[k]) && |Run(w, es[..k]).posts| <= i;
      assert k < |init|;
      assert init[..k] == es[..k] && init[k] == es[k];
    }
    if LostBy(w, init) {
      var k :| 0 <= k < |init| && Loses(Run(w, init[..k]), init[k]);
      assert init[..k] == es[..k] && init[k] == es[k];
      PostsGrow(w, init, k);
    }
  }

  lemma {:induction false} PostsGrow(w: World, es: seq<Event>, k: nat)
    requires Initial(w) && Saved(w) && k <= |es|
    ensures |Run(w, es[..k]).posts| <= |Run(w, es).posts|
    decreases |es|
  {
    hide Step, Gated, Synced, Boxed, Initial;
    if k == |es| {
      assert es[..k] == es;
    } else {
      var init := es[..|es| - 1];
      PostsGrow(w, init, k);
      assert init[..k] == es[..k];
      RunGates(w, init);
      RunSyncs(w, init);
      StepPosts(Run(w, init), es[|es| - 1]);
    }
  }

  /** So where every answer arrives, none is. */
  lemma NoRotatedTokenIsPosted(w: World, es: seq<Event>, i: nat)
    requires Initial(w) && InTouch(w) && w.posts == [] && i < |Run(w, es).posts|
    requires forall k :: 0 <= k < |es| && es[k].Answer? ==> !es[k].reply.Lost?
    ensures !Run(w, es).posts[i].stale
  {
    hide Run, InTouch;
    StaleIffLost(w, es, i);
  }

  // ----- the condition is needed

  const SAVED := Login("access", "first", "client")

  /** Two callers of one login, the server and the keychain agreed. */
  function Two(): World {
    World(Gate(false, [], ""), map[0 := Caller(Out, 0, ""), 1 := Caller(Out, 0, "")], map[0 := SAVED], Some(SAVED),
          "first", {}, None, [], [], [], [], None)
  }

  /** The first caller's grant is lost on the way; the second posts what it knows. */
  function LostRun(): seq<Event> {
    [Call(0, 0), Enter(0), Look(0), Ask(0), Answer(0, Lost("second")), Leave(0), Call(1, 0), Enter(1), Look(1), Ask(1)]
  }

  lemma RunOn(w: World, es: seq<Event>, e: Event)
    ensures Run(w, es + [e]) == Step(Run(w, es), e)
  {
    assert (es + [e])[..|es|] == es;
  }

  lemma RunFive(w: World, a: Event, b: Event, c: Event, d: Event, e: Event)
    ensures Run(w, [a, b, c, d, e]) == Step(Step(Step(Step(Step(w, a), b), c), d), e)
  {
    hide Step;
    RunOn(w, [], a);
    RunOn(w, [a], b);
    RunOn(w, [a, b], c);
    RunOn(w, [a, b, c], d);
    RunOn(w, [a, b, c, d], e);
    assert [] + [a] == [a] && [a] + [b] == [a, b] && [a, b] + [c] == [a, b, c];
    assert [a, b, c] + [d] == [a, b, c, d] && [a, b, c, d] + [e] == [a, b, c, d, e];
  }

  lemma {:induction false} RunJoins(w: World, a: seq<Event>, b: seq<Event>)
    ensures Run(w, a + b) == Run(Run(w, a), b)
  {
    if b == [] {
      assert a + b == a;
    } else {
      var n := |b| - 1;
      assert (a + b)[..|a + b| - 1] == a + b[..n];
      RunJoins(w, a, b[..n]);
    }
  }

  /** After the lost grant: the server has moved on, the keychain has not. */
  function AfterLost(): World {
    World(Gate(true, [], ""), map[0 := Caller(Leaving, 0, "first"), 1 := Caller(Out, 0, "")], map[0 := SAVED],
        Some(SAVED),
          "second", {"first"}, Some(0), [0], [0], [], [Post("first", false, false)], None)
  }

  lemma FirstEnters()
    ensures Step(Step(Two(), Call(0, 0)), Enter(0))
            == Two().(gate := Gate(true, [], ""),
                callers := map[0 := Caller(Looking, 0, "first"), 1 := Caller(Out, 0, "")],
                      holder := Some(0), arrived := [0], entered := [0])
  {
    var w1 := Step(Two(), Call(0, 0));
    assert w1.callers == map[0 := Caller(Wanting, 0, "first"), 1 := Caller(Out, 0, "")];
  }

  lemma FirstPosts(w: World)
    requires w == Two().(gate := Gate(true, [], ""),
        callers := map[0 := Caller(Looking, 0, "first"), 1 := Caller(Out, 0, "")],
                         holder := Some(0), arrived := [0], entered := [0])
    ensures Step(Step(Step(w, Look(0)), Ask(0)), Answer(0, Lost("second"))) == AfterLost()
  {
    var w3 := Step(w, Look(0));
    assert w3.callers[0] == Caller(Asking, 0, "first");
    var w4 := Step(w3, Ask(0));
    assert w4.callers[0] == Caller(Posting, 0, "first");
    assert w4.posts == [Post("first", false, false)];
  }

  lemma FirstHalf()
    ensures Run(Two(), LostRun()[..5]) == AfterLost()
  {
    hide Step;
    var w2 := Step(Step(Two(), Call(0, 0)), Enter(0));
    FirstEnters();
    FirstPosts(w2);
    RunFive(Two(), Call(0, 0), Enter(0), Look(0), Ask(0), Answer(0, Lost("second")));
    assert LostRun()[..5] == [Call(0, 0), Enter(0), Look(0), Ask(0), Answer(0, Lost("second"))];
  }

  lemma SecondCalls()
    ensures Step(Step(AfterLost(), Leave(0)), Call(1, 0))
            == AfterLost().(gate := Gate(false, [], ""),
                callers := map[0 := Caller(Out, 0, "first"), 1 := Caller(Wanting, 0, "first")],
                            holder := None, left := [0])
  {
    var w1 := Step(AfterLost(), Leave(0));
    assert w1.callers == map[0 := Caller(Out, 0, "first"), 1 := Caller(Out, 0, "")];
  }

  lemma SecondAsks(w: World)
    requires w == AfterLost().(gate := Gate(false, [], ""),
        callers := map[0 := Caller(Out, 0, "first"), 1 := Caller(Wanting, 0, "first")],
                               holder := None, left := [0])
    ensures Step(Step(Step(w, Enter(1)), Look(1)), Ask(1)).posts == [Post("first", false, false),
        Post("first", true, false)]
  {
    var w3 := Step(w, Enter(1));
    var w4 := Step(w3, Look(1));
    assert w4.callers[1] == Caller(Asking, 0, "first");
    assert [Post("first", false, false)] + [Post("first", true, false)] == [Post("first", false, false),
        Post("first", true, false)];
  }

  lemma SecondHalf()
    ensures var s := Run(AfterLost(), [Leave(0), Call(1, 0), Enter(1), Look(1), Ask(1)]);
            s.posts == [Post("first", false, false), Post("first", true, false)]
  {
    hide Step;
    var w2 := Step(Step(AfterLost(), Leave(0)), Call(1, 0));
    SecondCalls();
    SecondAsks(w2);
    RunFive(AfterLost(), Leave(0), Call(1, 0), Enter(1), Look(1), Ask(1));
  }

  /** A grant whose answer is lost leaves the keychain with a token rotated away, and the next
      caller posts it. */
  lemma LostGrantIsPosted()
    ensures Initial(Two()) && InTouch(Two())
    ensures var s := Run(Two(), LostRun());
            |s.posts| == 2 && s.posts[1] == Post("first", true, false)
  {
    hide Step;
    FirstHalf();
    SecondHalf();
    RunJoins(Two(), LostRun()[..5], LostRun()[5..]);
    assert LostRun()[..5] + LostRun()[5..] == LostRun();
    assert LostRun()[5..] == [Leave(0), Call(1, 0), Enter(1), Look(1), Ask(1)];
  }

  // ----- after a post that failed

  /** A caller whose post failed leaves, and comes again for the same login. */
  function Again(c: nat, box: nat): seq<Event> {
    [Leave(c), Call(c, box), Enter(c), Look(c), Ask(c)]
  }

  /** A caller that stands inside with a post out, its login the saved one, and no one in line. */
  ghost predicate Alone(w: World, c: nat) {
    && At(w, c, Posting) && w.gate.busy && w.gate.waiters == [] && w.callers[c].rt != ""
    && w.boxes[w.callers[c].box].refresh == w.callers[c].rt && w.boxes[w.callers[c].box].client != ""
    && Adoptable(w, w.callers[c].rt) == None
  }

  lemma LeavesAlone(w: World, c: nat, w1: World)
    requires Alone(w, c) && w1.gate == w.gate.(refused := w1.gate.refused) && w1 == w.(callers :=
               w.callers[c := w.callers[c].(pc := Leaving)], gate := w1.gate, dead := w1.dead)
    ensures var box, rt := w.callers[c].box, w.callers[c].rt;
            var w2 := Step(Step(Step(Step(w1, Leave(c)), Call(c, box)), Enter(c)), Look(c));
            && At(w2, c, Asking) && w2.callers[c].rt == rt && w2.callers[c].box == box
            && w2.gate.refused == w1.gate.refused
            && w2.posts == w.posts && w2.boxes == w.boxes
  {
    var box := w.callers[c].box;
    var a := Step(w1, Leave(c));
    assert At(a, c, Out) && !a.gate.busy;
    var b := Step(a, Call(c, box));
    assert At(b, c, Wanting) && b.callers[c].rt == w.callers[c].rt;
    var d := Step(b, Enter(c));
    assert At(d, c, Looking) && d.keychain == w.keychain;
  }

  /** A plain failure leaves the token to be posted again: the caller that comes back posts it. */
  lemma FailedIsPostedAgain(w: World, c: nat)
    requires Alone(w, c) && w.gate.refused != w.callers[c].rt
    ensures var rt, box := w.callers[c].rt, w.callers[c].box;
            var w' := Run(Step(w, Answer(c, Failed)), Again(c, box));
            |w'.posts| == |w.posts| + 1 && w'.posts[..|w.posts|] == w.posts && w'.posts[|w.posts|].token == rt
  {
    hide Step;
    var box := w.callers[c].box;
    var w1 := Step(w, Answer(c, Failed));
    FailsPlainly(w, c);
    LeavesAlone(w, c, w1);
    FiveSteps(w1, c, box);
    var w2 := Step(Step(Step(Step(w1, Leave(c)), Call(c, box)), Enter(c)), Look(c));
    AsksAgain(w2, c);
  }

  /** A token refused as invalid is not, by the caller or any other, while nothing else is refused. */
  lemma InvalidIsNotPostedAgain(w: World, c: nat)
    requires Alone(w, c)
    ensures var w' := Run(Step(w, Answer(c, Invalid)), Again(c, w.callers[c].box));
            w'.posts == w.posts && w'.gate.refused == w.callers[c].rt
  {
    hide Step;
    var box := w.callers[c].box;
    var w1 := Step(w, Answer(c, Invalid));
    FailsPlainly(w, c);
    LeavesAlone(w, c, w1);
    FiveSteps(w1, c, box);
    var w2 := Step(Step(Step(Step(w1, Leave(c)), Call(c, box)), Enter(c)), Look(c));
    AsksAgain(w2, c);
  }

  lemma FailsPlainly(w: World, c: nat)
    requires At(w, c, Posting)
    ensures Step(w, Answer(c, Failed)) == w.(callers := w.callers[c := w.callers[c].(pc := Leaving)])
    ensures var w1 := Step(w, Answer(c, Invalid));
            w1 == w.(callers := w.callers[c := w.callers[c].(pc := Leaving)],
                gate := w.gate.(refused := w.callers[c].rt), dead := w1.dead)
  {
  }

  lemma AsksAgain(w: World, c: nat)
    requires At(w, c, Asking) && w.boxes[w.callers[c].box].client != ""
    ensures var w' := Step(w, Ask(c));
            && w'.gate.refused == w.gate.refused
            && if w.gate.refused == w.callers[c].rt then w'.posts == w.posts
               else |w'.posts| == |w.posts| + 1 && w'.posts[..|w.posts|] == w.posts
                    && w'.posts[|w.posts|].token == w.callers[c].rt
  {
  }

  lemma FiveSteps(w: World, c: nat, box: nat)
    ensures Run(w, Again(c, box))
            == Step(Step(Step(Step(Step(w, Leave(c)), Call(c, box)), Enter(c)), Look(c)), Ask(c))
  {
    hide Step;
    RunFive(w, Leave(c), Call(c, box), Enter(c), Look(c), Ask(c));
  }

  // ----- no post between a refusal and a grant

  /** The event grants something. */
  predicate Grants(e: Event) {
    e.Answer? && e.reply.Granted?
  }

  /** A token refused as invalid while the keychain held it: whatever else happens, no caller posts it
      before a grant comes. */
  lemma NoPostUntilGranted(w: World, es: seq<Event>, i: nat, c: nat, j: nat, d: nat)
    requires Initial(w) && Saved(w) && i < j < |es| && es[i] == Answer(c, Invalid) && es[j] == Ask(d)
    requires var at := Run(w, es[..i]);
             && At(at, c, Posting) && at.keychain.Some? && at.keychain.value.refresh == at.callers[c].rt
    requires forall k :: i < k < j ==> !Grants(es[k])
    ensures var before, after := Run(w, es[..j]), Run(w, es[..j + 1]);
            after.posts == before.posts
            || (|after.posts| == |before.posts| + 1
                && after.posts[|before.posts|].token != Run(w, es[..i]).callers[c].rt)
  {
    hide Run, Step;
    var at := Run(w, es[..i]);
    var rt := at.callers[c].rt;
    RunNext(w, es, i);
    DeadFrom(at, c);
    DeadStays(w, es, i + 1, j, rt);
    var before := Run(w, es[..j]);
    RunNext(w, es, j);
    AskTells(before, d);
    if Run(w, es[..j + 1]).posts != before.posts {
      assert es[..j + 1][..j] == es[..j];
      RefusedIsNotPostedAgain(w, es[..j + 1], |before.posts|);
    }
  }

  lemma RunNext(w: World, es: seq<Event>, i: nat)
    requires i < |es|
    ensures Run(w, es[..i + 1]) == Step(Run(w, es[..i]), es[i])
  {
    hide Step;
    assert es[..i + 1][..i] == es[..i];
  }

  lemma DeadFrom(w: World, c: nat)
    requires At(w, c, Posting) && w.keychain.Some? && w.keychain.value.refresh == w.callers[c].rt
    ensures DeadIs(Step(w, Answer(c, Invalid)), w.callers[c].rt)
  {
  }

  predicate DeadIs(w: World, rt: Token) {
    w.dead == Some(rt) && w.keychain.Some? && w.keychain.value.refresh == rt
  }

  lemma {:induction false} DeadStays(w: World, es: seq<Event>, i: nat, j: nat, rt: Token)
    requires i <= j <= |es| && DeadIs(Run(w, es[..i]), rt) && forall k :: i <= k < j ==> !Grants(es[k])
    ensures DeadIs(Run(w, es[..j]), rt)
  {
    hide Run, Step;
    if i < j {
      DeadStays(w, es, i, j - 1, rt);
      RunNext(w, es, j - 1);
      DeadStep(Run(w, es[..j - 1]), es[j - 1], rt);
    }
  }

  lemma DeadStep(w: World, e: Event, rt: Token)
    requires DeadIs(w, rt) && !Grants(e)
    ensures DeadIs(Step(w, e), rt)
  {
  }

  lemma AskTells(w: World, d: nat)
    ensures var w' := Step(w, Ask(d));
            w'.posts == w.posts
            || (|w'.posts| == |w.posts| + 1
                && w'.posts[|w.posts|].again == (w.dead == Some(w'.posts[|w.posts|].token)))
  {
  }
}
