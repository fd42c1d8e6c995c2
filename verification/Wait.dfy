/**
 The poll, print and wait loop of the command: what the exit code says, when waiting stops, and what
 exit code is left however the poller, the printer and the cancellation interleave.
 */
module Wait {
  import opened Base
  import opened Status

  // The statuses of the root objects in one update.
  type Frame = seq<Status>

  // ----- exit codes -----

  function Severity(r: Result): nat {
    match r
    case Ok => 0
    case Warning => 1
    case Error => 2
    case Unknown => 3
  }

  function Worst(f: Frame): nat {
    if f == [] then 0 else Max(Worst(f[..|f| - 1]), Severity(f[|f| - 1].result))
  }

  function Max(a: nat, b: nat): nat {
    if a < b then b else a
  }

  predicate AnyProgressing(f: Frame) {
    exists i :: 0 <= i < |f| && f[i].progressing
  }

  function ExitCode(f: Frame): nat {
    Worst(f) + if AnyProgressing(f) then 8 else 0
  }

  /** Setting the fourth bit. */
  function WithBit8(code: nat): nat {
    if code / 8 % 2 == 1 then code else code + 8
  }

  lemma {:induction false} WorstIsWorst(f: Frame)
    ensures Worst(f) <= 3
    ensures forall i :: 0 <= i < |f| ==> Severity(f[i].result) <= Worst(f)
    ensures Worst(f) > 0 ==> exists i :: 0 <= i < |f| && Severity(f[i].result) == Worst(f)
  {
    if f == [] {
    } else {
      WorstIsWorst(f[..|f| - 1]);
    }
  }

  /** The documented meaning: the low bits are the worst result, the eight says something progresses. */
  lemma ExitCodeDecodes(f: Frame)
    ensures ExitCode(f) % 8 == Worst(f)
    ensures ExitCode(f) / 8 == if AnyProgressing(f) then 1 else 0
    ensures ExitCode(f) == 0 <==> forall i :: 0 <= i < |f| ==> f[i] == Status(Ok, false)
    ensures ExitCode(f) % 8 ==
            if (exists i :: 0 <= i < |f| && f[i].result == Unknown) then 3
            else if (exists i :: 0 <= i < |f| && f[i].result == Error) then 2
            else if (exists i :: 0 <= i < |f| && f[i].result == Warning) then 1
            else 0
    ensures ExitCode(f) >= 8 <==> exists i :: 0 <= i < |f| && f[i].progressing
  {
    WorstIsWorst(f);
  }

  /** The order of the objects does not matter, nor how often each is given. */
  lemma ExitCodeOrderIndependent(f: Frame, g: Frame)
    requires forall s :: s in f <==> s in g
    ensures ExitCode(f) == ExitCode(g)
  {
    WorstIsWorst(f);
    WorstIsWorst(g);
    assert forall i :: 0 <= i < |f| ==> f[i] in f && f[i] in g;
    assert forall i :: 0 <= i < |g| ==> g[i] in g && g[i] in f;
  }

  // ----- when to stop -----

  datatype Flags = Flags(waitForever: bool, waitProgress: bool, waitOk: bool)

  /** Unknown counts as progressing. */
  predicate Unsettled(f: Frame) {
    exists i :: 0 <= i < |f| && (f[i].progressing || f[i].result == Unknown)
  }

  predicate AllOk(f: Frame) {
    forall i :: 0 <= i < |f| ==> f[i].result == Ok
  }

  predicate Finishes(fl: Flags, f: Frame) {
    && !fl.waitForever
    && if fl.waitProgress then !Unsettled(f) else if fl.waitOk then !Unsettled(f) && AllOk(f) else true
  }

  lemma AnyProgressingSnoc(f: Frame, i: nat)
    requires i < |f|
    ensures AnyProgressing(f[..i + 1]) <==> AnyProgressing(f[..i]) || f[i].progressing
  {
    var g := f[..i];
    var g' := f[..i + 1];
    assert g' == g + [f[i]];
    if AnyProgressing(g) {
      var k :| 0 <= k < |g| && g[k].progressing;
      assert g'[k].progressing;
    }
    if f[i].progressing {
      assert g'[i].progressing;
    }
  }

  /** The command's globals: the exit code and the cancellation of its context. */
  class Command {
    const flags: Flags
    var exitCode: nat
    var cancelled: bool

    constructor (flags: Flags)
      ensures this.flags == flags && exitCode == 0 && !cancelled
    {
      this.flags, exitCode, cancelled := flags, 0, false;
    }

    method SetExitCode(f: Frame)
      modifies this`exitCode
      ensures exitCode == ExitCode(f)
    {
      exitCode := 0;
      for i := 0 to |f|
        invariant exitCode == Worst(f[..i]) <= 3
      {
        assert f[..i + 1][..i] == f[..i];
        match f[i].result
        case Unknown => exitCode := 3;
        case Error => exitCode := Max(exitCode, 2);
        case Warning => exitCode := Max(exitCode, 1);
        case Ok => exitCode := Max(exitCode, 0);
      }
      assert f[..|f|] == f;
      for i := 0 to |f|
        invariant exitCode == Worst(f) + (if AnyProgressing(f[..i]) then 8 else 0) && Worst(f) <= 3
      {
        AnyProgressingSnoc(f, i);
        if f[i].progressing {
          exitCode := WithBit8(exitCode);
        }
      }
    }

    /** The callback the printer runs after each frame. */
    method WaitFunction(f: Frame)
      modifies this
      ensures exitCode == if Finishes(flags, f) then ExitCode(f) else old(exitCode)
      ensures cancelled == (old(cancelled) || Finishes(flags, f))
    {
      if flags.waitForever {
        return;
      }
      var progressing := false;
      if flags.waitProgress || flags.waitOk {
        for i := 0 to |f|
          invariant exitCode == old(exitCode) && cancelled == old(cancelled)
          invariant progressing <==> exists k :: 0 <= k < i && (f[k].progressing || f[k].result == Unknown)
        {
          if f[i].progressing || f[i].result == Unknown {
            progressing := true;
          }
        }
      }
      if flags.waitProgress {
        if !progressing {
          Finish(f);
        }
        return;
      }
      if flags.waitOk {
        if progressing {
          return;
        }
        var ready := true;
        for i := 0 to |f|
          invariant exitCode == old(exitCode) && cancelled == old(cancelled)
          invariant ready <==> forall k :: 0 <= k < i ==> f[k].result == Ok
        {
          if f[i].result != Ok {
            ready := false;
          }
        }
        if ready {
          Finish(f);
        }
        return;
      }
      Finish(f);
    }

    method Finish(f: Frame)
      modifies this
      ensures exitCode == ExitCode(f) && cancelled
    {
      SetExitCode(f);
      cancelled := true;
    }
  }

  // ----- the protocol -----

  datatype Poller = Evaluating | Sending(frame: Frame) | Selecting | Exited
  datatype Printer = Receiving | Handling(frame: Frame) | Stopped

  datatype State = State(poller: Poller, printer: Printer, cancelled: bool, closed: bool, exitCode: nat)

  datatype Step =
    | Evaluate(frame: Frame)  // one round of polling ends with these statuses
    | Deliver                 // rendezvous on the unbuffered update channel
    | Tick                    // the select takes the timer, cancelled or not
    | Quit                    // the select takes the cancellation; the channel is closed
    | Handle                  // the printer prints and runs the callback
    | Stop                    // the printer finds the channel closed; the process exits

  const INIT := State(Evaluating, Receiving, false, false, 0)

  predicate Enabled(s: State, t: Step) {
    match t
    case Evaluate(_) => s.poller.Evaluating?
    case Deliver => s.poller.Sending? && s.printer.Receiving?
    case Tick => s.poller.Selecting?
    case Quit => s.poller.Selecting? && s.cancelled
    case Handle => s.printer.Handling?
    case Stop => s.printer.Receiving? && s.closed
  }

  function Apply(fl: Flags, s: State, t: Step): State
    requires Enabled(s, t)
  {
    match t
    case Evaluate(f) => s.(poller := Sending(f))
    case Deliver => s.(poller := Selecting, printer := Handling(s.poller.frame))
    case Tick => s.(poller := Evaluating)
    case Quit => s.(poller := Exited, closed := true)
    case Handle =>
      var f := s.printer.frame;
      if Finishes(fl, f) then s.(printer := Receiving, exitCode := ExitCode(f), cancelled := true)
      else s.(printer := Receiving)
    case Stop => s.(printer := Stopped)
  }

  datatype Run = Begin | Then(before: Run, step: Step)

  function At(fl: Flags, r: Run): State {
    match r
    case Begin => INIT
    case Then(q, t) => if Enabled(At(fl, q), t) then Apply(fl, At(fl, q), t) else At(fl, q)
  }

  ghost predicate Legal(fl: Flags, r: Run) {
    match r
    case Begin => true
    case Then(q, t) => Legal(fl, q) && Enabled(At(fl, q), t)
  }

  /** The frames the printer has received, oldest first. */
  function Delivered(fl: Flags, r: Run): seq<Frame> {
    match r
    case Begin => []
    case Then(q, t) =>
      Delivered(fl, q) + if t == Deliver && At(fl, q).poller.Sending? then [At(fl, q).poller.frame] else []
  }

  /** The last of the frames that ends the waiting. */
  function LastFinishing(fl: Flags, frames: seq<Frame>): Option<Frame> {
    if frames == [] then None
    else
      var last := frames[|frames| - 1];
      if Finishes(fl, last) then Some(last) else LastFinishing(fl, frames[..|frames| - 1])
  }

  /** The frames the callback has already run on. */
  function Handled(s: State, delivered: seq<Frame>): seq<Frame> {
    if s.printer.Handling? && delivered != [] then delivered[..|delivered| - 1] else delivered
  }

  ghost predicate Control(s: State, d: seq<Frame>) {
    && (s.printer.Handling? ==> d != [] && s.printer.frame == d[|d| - 1])
    && (s.closed <==> s.poller.Exited?)
    && (s.closed ==> s.cancelled)
    && (s.printer.Stopped? ==> s.closed)
  }

  ghost predicate Verdict(fl: Flags, s: State, handled: seq<Frame>) {
    var last := LastFinishing(fl, handled);
    && (s.cancelled <==> last.Some?)
    && s.exitCode == if last.Some? then ExitCode(last.value) else 0
  }

  ghost predicate Invariant(fl: Flags, s: State, d: seq<Frame>) {
    Control(s, d) && Verdict(fl, s, Handled(s, d))
  }

  lemma InvariantStep(fl: Flags, s: State, d: seq<Frame>, t: Step)
    requires Invariant(fl, s, d) && Enabled(s, t)
    ensures Invariant(fl, Apply(fl, s, t), d + if t.Deliver? then [s.poller.frame] else [])
  {
    hide ExitCode, Finishes;
    if t.Deliver? {
      hide LastFinishing;
      assert (d + [s.poller.frame])[..|d|] == d;
    } else if t.Handle? {
      assert d + [] == d;
    } else {
      hide LastFinishing;
      assert d + [] == d;
    }
  }

  lemma {:induction false} InvariantRun(fl: Flags, r: Run)
    requires Legal(fl, r)
    ensures Invariant(fl, At(fl, r), Delivered(fl, r))
  {
    match r
    case Begin =>
    case Then(q, t) =>
      hide Invariant;
      InvariantRun(fl, q);
      InvariantStep(fl, At(fl, q), Delivered(fl, q), t);
  }

  /** Nothing ever waits forever on something that cannot happen. */
  lemma NoDeadlock(fl: Flags, r: Run) returns (t: Step)
    requires Legal(fl, r) && !At(fl, r).printer.Stopped?
    ensures Legal(fl, Then(r, t))
  {
    InvariantRun(fl, r);
    var s := At(fl, r);
    t := if s.printer.Handling? then Handle
         else match s.poller
              case Evaluating => Evaluate([])
              case Sending(_) => Deliver
              case Selecting => Tick
              case Exited => Stop;
  }

  lemma {:induction false} LastFinishingFacts(fl: Flags, frames: seq<Frame>)
    ensures var last := LastFinishing(fl, frames);
            && (last.Some? ==> last.value in frames && Finishes(fl, last.value))
            && (last.None? ==> forall f :: f in frames ==> !Finishes(fl, f))
  {
    if frames == [] {
    } else {
      assert frames == frames[..|frames| - 1] + [frames[|frames| - 1]];
      LastFinishingFacts(fl, frames[..|frames| - 1]);
    }
  }

  /** In every interleaving, frames delivered after the cancellation included: a process that has
      stopped leaves the exit code of the last delivered frame that ended the waiting. Waiting for
      progress that frame has nothing progressing or Unknown, so the code is 0, 1 or 2; waiting for
      readiness the code is 0; without a flag it is simply the last frame; and waiting forever never
      stops. */
  lemma ExitCodeOfRun(fl: Flags, r: Run) returns (f: Frame)
    requires Legal(fl, r) && At(fl, r).printer.Stopped?
    ensures !fl.waitForever
    ensures f in Delivered(fl, r) && Finishes(fl, f) && At(fl, r).exitCode == ExitCode(f)
    ensures fl.waitProgress ==> !Unsettled(f) && At(fl, r).exitCode <= 2
    ensures !fl.waitProgress && fl.waitOk ==> At(fl, r).exitCode == 0
    ensures !fl.waitProgress && !fl.waitOk ==> f == Delivered(fl, r)[|Delivered(fl, r)| - 1]
  {
    InvariantRun(fl, r);
    var d := Delivered(fl, r);
    LastFinishingFacts(fl, d);
    f := LastFinishing(fl, d).value;
    ExitCodeDecodes(f);
    WorstIsWorst(f);
  }

  /** Which frames end the waiting: never under wait-forever; under wait-progress those with everything
      settled and known; under wait-ok those with everything Ok and settled; without a flag any. */
  lemma FinishesMeans(fl: Flags, f: Frame)
    ensures Finishes(fl, f) <==>
            if fl.waitForever then false
            else if fl.waitProgress then forall i :: 0 <= i < |f| ==> !f[i].progressing && f[i].result != Unknown
            else if fl.waitOk then forall i :: 0 <= i < |f| ==> f[i] == Status(Ok, false)
            else true
  {
  }

  /** Once a frame that ends the waiting has been handled, the process can stop: at most five more steps
      lead there, whatever the poller was doing. */
  lemma StopsWhenDone(fl: Flags, r: Run, f: Frame) returns (r': Run)
    requires Legal(fl, r) && f in Handled(At(fl, r), Delivered(fl, r)) && Finishes(fl, f)
    ensures Legal(fl, r') && At(fl, r').printer.Stopped?
  {
    InvariantRun(fl, r);
    LastFinishingFacts(fl, Handled(At(fl, r), Delivered(fl, r)));
    var s := At(fl, r);
    assert s.cancelled;
    if s.printer.Stopped? {
      return r;
    }
    var handled := if s.printer.Handling? then Then(r, Handle) else r;
    hide Finishes, ExitCode;
    assert Legal(fl, handled) && At(fl, handled).printer.Receiving?;
    assert At(fl, handled).poller == s.poller && At(fl, handled).cancelled && At(fl, handled).closed == s.closed;
    r' := StopsFromThere(fl, handled);
  }

  /** With the printer ready and the context cancelled, the poller quits, and then the printer stops. */
  lemma StopsFromThere(fl: Flags, r: Run) returns (r': Run)
    requires Legal(fl, r) && At(fl, r).printer.Receiving? && At(fl, r).cancelled
    ensures Legal(fl, r') && At(fl, r').printer.Stopped?
    decreases At(fl, r).poller.Evaluating?
  {
    InvariantRun(fl, r);
    hide Finishes, ExitCode;
    match At(fl, r).poller
    case Exited => r' := Then(r, Stop);
    case Selecting => r' := Then(Then(r, Quit), Stop);
    case Sending(_) =>
      var delivered := Then(r, Deliver);
      var handled := Then(delivered, Handle);
      assert Legal(fl, delivered) && At(fl, delivered).printer.Handling? && At(fl, delivered).cancelled;
      assert Legal(fl, handled) && At(fl, handled).poller.Selecting? && At(fl, handled).cancelled;
      r' := Then(Then(handled, Quit), Stop);
    case Evaluating =>
      var sending := Then(r, Evaluate([]));
      assert Legal(fl, sending) && At(fl, sending).poller.Sending? && At(fl, sending).cancelled;
      r' := StopsFromThere(fl, sending);
  }
}
