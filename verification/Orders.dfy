/** An order as its events make it: what moves are allowed from where it stands, and what the
    broker's readings make of how much of it has filled. */
module Orders {
  import opened Trading

  datatype State =
    | Dry | Sending | Unconfirmed | Pending | PartlyFilled | Filled
    | Cancelling | Cancelled | Expired | Rejected | Failed

  datatype Status = IsOpen | IsFilled | IsCancelled | IsExpired | IsRejected | NotFound

  datatype Reading = Reading(status: Status, filled: real, average: Option<real>)

  datatype Event =
    | Written | Imported | NotSent | Accepted(brokerId: string) | Refused | Unclear
    | Read(reading: Reading) | CancelAsked | CancelRefused | ModifyAsked | ModifyRefused

  datatype Fold = Fold(state: State, brokerId: Option<string>, filled: real, average: Option<real>) {
    /** The state that working at the broker means, with what has filled. */
    function Working(): State {
      if filled > 0.0 then PartlyFilled else Pending
    }

    /** A higher reading brings its own average, or none. */
    function Settle(r: Reading): Fold {
      if r.filled > filled then this.(filled := r.filled, average := r.average) else this
    }
  }

  /** An order as it is first written, before anything is sent. */
  function Start(dry: bool): Fold {
    Fold(if dry then Dry else Sending, None, 0.0, None)
  }

  predicate InFlight(s: State) {
    s.Sending? || s.Unconfirmed? || s.Pending? || s.PartlyFilled? || s.Cancelling?
  }

  /** The order after one event, or None where the event is not allowed there. */
  function Apply(f: Fold, e: Event): Option<Fold> {
    match e
    case Written | Imported => None
    case NotSent => if f.state.Sending? then Some(f.(state := Failed)) else None
    case Accepted(id) =>
      if f.state.Sending? || f.state.Unconfirmed? then Some(f.(brokerId := Some(id), state := f.Working()))
      else if f.brokerId == Some(id) then Some(f)
      else if (f.state.Pending? || f.state.PartlyFilled? || f.state.Cancelling?
               || f.state.Filled? || f.state.Cancelled? || f.state.Expired?) && f.brokerId.None? then
        Some(f.(brokerId := Some(id)))
      else None
    case Refused => if f.state.Sending? || f.state.Unconfirmed? then Some(f.(state := Rejected)) else None
    case Unclear => if f.state.Sending? || f.state.Unconfirmed? then Some(f.(state := Unconfirmed)) else None
    case Read(r) => ApplyReading(f, r)
    case CancelAsked =>
      if f.state.Pending? || f.state.PartlyFilled? then Some(f.(state := Cancelling))
      else if f.state.Cancelling? then Some(f)
      else None
    case CancelRefused => if f.state.Cancelling? then Some(f.(state := f.Working())) else None
    case ModifyAsked => if f.state.Pending? || f.state.PartlyFilled? then Some(f) else None
    case ModifyRefused => if f.state.Pending? || f.state.PartlyFilled? || f.state.Cancelling? then Some(f) else None
  }

  /** The final state a reading says again. */
  predicate SaysAgain(s: State, r: Status) {
    (s.Filled? && r.IsFilled?) || (s.Cancelled? && r.IsCancelled?)
    || (s.Expired? && r.IsExpired?) || (s.Rejected? && r.IsRejected?)
  }

  function ApplyReading(f: Fold, r: Reading): Option<Fold> {
    if r.filled < 0.0 || (r.status.IsFilled? && r.filled <= 0.0) || r.filled < f.filled || f.state.Dry? then None
    else if r.status.NotFound? then
      if f.state.Sending? || f.state.Unconfirmed? then Some(f.(state := Failed)) else None
    else if !InFlight(f.state) then
      if (f.state.Cancelled? || f.state.Expired?) && r.status.IsFilled? then Some(f.Settle(r).(state := Filled))
      else if SaysAgain(f.state, r.status) || r.status.IsOpen? then
        Some(if f.state.Failed? || f.state.Rejected? then f else f.Settle(r))
      else None
    else
      var g := f.Settle(r);
      Some(g.(state :=
        match r.status
        case IsOpen => if f.state.Cancelling? then Cancelling else g.Working()
        case IsFilled => Filled
        case IsCancelled => Cancelled
        case IsExpired => Expired
        case _ => Rejected))
  }

  /** An event that is not allowed changes nothing. */
  function Next(f: Fold, e: Event): Fold {
    match Apply(f, e)
    case Some(g) => g
    case None => f
  }

  function After(f: Fold, es: seq<Event>): Fold {
    if es == [] then f else Next(After(f, es[..|es| - 1]), es[|es| - 1])
  }

  /** One event later: no less has filled, the average moves only with it, and both are then
      the reading's; the broker's id, once learnt of an order at the broker, stays; an ended
      order stays ended, and moves only when a fill overtakes its cancel or its expiry. */
  ghost predicate Follows(f: Fold, g: Fold) {
    && f.filled <= g.filled
    && (f.filled == g.filled ==> f.average == g.average)
    && (f.brokerId.Some? && !f.state.Sending? && !f.state.Unconfirmed? ==> g.brokerId == f.brokerId)
    && (f.state.Dry? ==> g == f)
    && (!InFlight(f.state) ==> g.state == f.state || ((f.state.Cancelled? || f.state.Expired?) && g.state.Filled?))
    && (!f.state.Sending? && !f.state.Unconfirmed? ==> !g.state.Sending? && !g.state.Unconfirmed?)
  }

  /** What each state says of an order that was written here: nothing has filled before the
      broker has it or when it never did, and something has where it says so. */
  ghost predicate Sound(f: Fold) {
    && f.filled >= 0.0
    && (f.filled == 0.0 ==> f.average.None?)
    && (f.state.Dry? || f.state.Sending? || f.state.Unconfirmed? || f.state.Failed? ==>
          f.filled == 0.0 && f.brokerId.None?)
    && (f.state.Pending? ==> f.filled == 0.0)
    && (f.state.PartlyFilled? || f.state.Filled? ==> f.filled > 0.0)
  }

  lemma NextFollows(f: Fold, e: Event)
    ensures Follows(f, Next(f, e))
    ensures Next(f, e).filled > f.filled ==>
              e.Read? && Next(f, e).filled == e.reading.filled && Next(f, e).average == e.reading.average
    ensures Sound(f) ==> Sound(Next(f, e))
  {
  }

  /** Over any events: from every point of a log to every later one. */
  lemma {:induction false} OnlyRises(f: Fold, es: seq<Event>, i: nat)
    requires i <= |es|
    ensures Follows(After(f, es[..i]), After(f, es))
    decreases |es|
  {
    if i == |es| {
      assert es[..i] == es;
    } else {
      var n := |es| - 1;
      OnlyRises(f, es[..n], i);
      assert es[..n][..i] == es[..i];
      NextFollows(After(f, es[..n]), es[n]);
    }
  }

  /** A log that starts with the order written leaves it sound, whatever follows. */
  lemma {:induction false} WrittenIsSound(dry: bool, es: seq<Event>)
    ensures Sound(After(Start(dry), es))
  {
    if es != [] {
      WrittenIsSound(dry, es[..|es| - 1]);
      NextFollows(After(Start(dry), es[..|es| - 1]), es[|es| - 1]);
    }
  }

  // ----- each move, told by where it may be made and where it leads

  /** The states a move may be made in, and the one it leads to. */
  function MayBe(e: Event): set<State> {
    match e
    case NotSent => {Sending}
    case Refused | Unclear => {Sending, Unconfirmed}
    case CancelAsked => {Pending, PartlyFilled, Cancelling}
    case CancelRefused => {Cancelling}
    case ModifyAsked => {Pending, PartlyFilled}
    case ModifyRefused => {Pending, PartlyFilled, Cancelling}
    case _ => {}
  }

  predicate LeadsTo(f: Fold, e: Event, to: State) {
    match e
    case NotSent => to == Failed
    case Refused => to == Rejected
    case Unclear => to == Unconfirmed
    case CancelAsked => to == Cancelling
    case CancelRefused => to == if f.filled == 0.0 then Pending else PartlyFilled
    case _ => to == f.state
  }

  /** A move that is no reading and names no broker's id changes the state alone, to where it leads,
      exactly where it may be made. */
  lemma MovesAsTold(f: Fold, e: Event)
    requires !e.Read? && !e.Accepted? && f.filled >= 0.0
    ensures Apply(f, e).Some? <==> f.state in MayBe(e)
    ensures f.state in MayBe(e) ==> LeadsTo(f, e, Next(f, e).state)
    ensures Next(f, e) == f.(state := Next(f, e).state)
    ensures f.state !in MayBe(e) ==> Next(f, e) == f
  {
  }

  /** The broker's answer names the order, and sets it working where it was not known to be there. */
  lemma AnswerNamesIt(f: Fold, id: string)
    requires f.filled >= 0.0
    ensures var g := Next(f, Accepted(id));
            && g.filled == f.filled && g.average == f.average
            && (f.state in {Sending, Unconfirmed} ==>
                  g.brokerId == Some(id) && g.state == if f.filled == 0.0 then Pending else PartlyFilled)
            && (f.state !in {Sending, Unconfirmed} ==> g.state == f.state)
            && (f.state in {Pending, PartlyFilled, Cancelling, Filled, Cancelled, Expired} && f.brokerId.None? ==>
                  g.brokerId == Some(id))
            && (f.brokerId.Some? && f.state !in {Sending, Unconfirmed} ==> g.brokerId == f.brokerId)
  {
  }

  /** What a status says of an order that is there. */
  predicate SaidBy(was: State, status: Status, filled: real, to: State) {
    match status
    case IsOpen => to == if was == Cancelling then Cancelling else if filled == 0.0 then Pending else PartlyFilled
    case IsFilled => to == Filled
    case IsCancelled => to == Cancelled
    case IsExpired => to == Expired
    case IsRejected => to == Rejected
    case NotFound => to == Failed
  }

  /** A reading of an order on its way stands as read: its state is what the status says, and the higher
      quantity is filled, at the average that came with it. One that says less has filled, or that all
      has and nothing has, or that an order sent is not there, changes nothing. */
  lemma ReadingStands(f: Fold, r: Reading)
    requires Sound(f) && InFlight(f.state)
    ensures var g := Next(f, Read(r));
            if r.filled < f.filled || (r.status.IsFilled? && r.filled == 0.0)
               || (r.status.NotFound? && f.state !in {Sending, Unconfirmed})
            then g == f
            else if r.status.NotFound? then g == f.(state := Failed)
            else SaidBy(f.state, r.status, g.filled, g.state) && g.filled == r.filled && g.brokerId == f.brokerId
                 && g.average == if r.filled > f.filled then r.average else f.average
  {
  }

  /** An order that has ended takes a reading only where that says the same end again, or open, or, of
      one cancelled or expired, that it filled after all; and then fills no less. */
  lemma EndStands(f: Fold, r: Reading)
    requires Sound(f) && !InFlight(f.state)
    ensures var g := Next(f, Read(r));
            && (g.state != f.state ==>
                  f.state in {Cancelled, Expired} && r.status == IsFilled && g.state == Filled && g.filled > 0.0)
            && (g.filled != f.filled ==>
                  && g.filled == r.filled > f.filled && g.average == r.average && f.state !in {Dry, Failed, Rejected}
                  && (SaidBy(f.state, r.status, g.filled, f.state) || r.status in {IsOpen, IsFilled}))
            && (f.state in {Cancelled, Expired} && r.status == IsFilled && r.filled >= f.filled && r.filled > 0.0 ==>
                  g.state == Filled && g.filled == r.filled)
            && (f.state in {Filled, Cancelled, Expired} && r.filled > f.filled ==>
                  SaidBy(f.state, r.status, r.filled, f.state) ==> g.filled == r.filled)
  {
  }
}
