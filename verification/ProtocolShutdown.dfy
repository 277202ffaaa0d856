/** The completed drain is final: after the backend has been closed nothing reaches it again. */
module ProtocolShutdown {
  import opened Types
  import opened Bookkeeping
  import opened Protocol
  import opened ProtocolInvariant
  import opened ProtocolEffects
  import opened ProtocolTheorems

  lemma DrainIsFinal(c: Config, s: State, a: Action)
    requires Inv(c, s) && Step(c, s, a).Some? && s.book.closeDrained
    ensures Step(c, s, a).value.book.closeDrained
  {
    hide AcquireStep, RefundStep, LifecycleStep, Inv;
    match a
    case OnAcquire(x) =>
      AcquiresIssued(c, s, x.rid);
      AcquireTouches(c, s, x);
    case OnRefund(x) => RefundTouches(c, s, x);
    case OnLifecycle(x) => LifecycleTouches(c, s, x);
  }

  /** Whatever runs after the backend has been closed, no backend work is ever running again. */
  lemma NothingStartsAfterClose(c: Config, before: seq<Action>, after: seq<Action>)
    requires Run(c, Initial, before).Some? && Run(c, Run(c, Initial, before).value, after).Some?
    requires BackendClosingOrClosed(Run(c, Initial, before).value)
    ensures !BackendWork(Run(c, Run(c, Initial, before).value, after).value)
  {
    hide Inv, BackendWork, Step;
    RunsKeepInvariant(c, before);
    var s := Run(c, Initial, before).value;
    ClosingIsDrained(c, s);
    DrainStaysFinal(c, s, after);
    DrainedIsIdle(c, Run(c, s, after).value);
  }

  lemma {:induction false} DrainStaysFinal(c: Config, s: State, actions: seq<Action>)
    requires Inv(c, s) && s.book.closeDrained && Run(c, s, actions).Some?
    ensures Inv(c, Run(c, s, actions).value) && Run(c, s, actions).value.book.closeDrained
    decreases |actions|
  {
    hide Inv, Step;
    if actions != [] {
      var earlier, last := actions[..|actions| - 1], actions[|actions| - 1];
      DrainStaysFinal(c, s, earlier);
      StepKeeps(c, Run(c, s, earlier).value, last);
      DrainIsFinal(c, Run(c, s, earlier).value, last);
    }
  }
}
