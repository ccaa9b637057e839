/** The refresh guard of the container list in web/static/app.js: runScopedRefresh, loadContainers
    and the server picker. A request is outstanding from the call of loadContainers until its finally
    block; in between its answer settles it. A click is an event of its own and never runs
    between an answer and the finally block that follows it, which one run of the page's microtasks
    contains. In the page the same holds of an update of the server options, which continues
    another request; the model nevertheless lets it in anywhere, and says what depends on it. */
module ScopedRefresh {
  import opened Basics

  /** What the table shows, and for which server. */
  datatype Shown =
    | Nothing
    | Loading
    | NoServers
    | Rows(scope: string, rows: seq<string>)
    | NoRows(scope: string)
    | NoData(scope: string, message: string)

  datatype Answer = List(rows: seq<string>) | Refused(message: string)

  datatype Run = Run(scope: string, settled: bool)

  /** `runs` are the outstanding requests. `asked` remembers that a refresh was asked for since the
      selection last changed. */
  datatype State = State(selected: string, inFlight: bool, runs: seq<Run>, shown: Shown, asked: bool)

  datatype Event =
    | Select(scope: string)
    | Tick
    | Options(scope: string, visible: bool)
    | Settle(k: nat, answer: Answer)
    | Finish(k: nat)

  const START := State("", false, [], Nothing, false)

  /** refreshContainers */
  function Refresh(s: State): State {
    if s.inFlight then s.(asked := true)
    else if s.selected == "" then
      s.(inFlight := true, shown := NoServers, runs := s.runs + [Run("", true)], asked := true)
    else s.(inFlight := true, runs := s.runs + [Run(s.selected, false)], asked := true)
  }

  function Rendered(scope: string, answer: Answer): Shown {
    match answer
    case List(rows) => if rows == [] then NoRows(scope) else Rows(scope, rows)
    case Refused(message) => NoData(scope, message)
  }

  predicate Enabled(s: State, e: Event) {
    match e
    case Select(scope) => scope != "" && NoneSettled(s)
    case Tick => true
    case Options(_, _) => true
    case Settle(k, _) => k < |s.runs| && !s.runs[k].settled
    case Finish(k) => k < |s.runs| && s.runs[k].settled
  }

  function Step(s: State, e: Event): State
    requires Enabled(s, e)
  {
    match e
    case Select(scope) =>
      Refresh(if s.selected == scope then s else s.(selected := scope, shown := Loading))
    case Tick => Refresh(s)
    case Options(scope, visible) =>
      var t := if s.selected == scope then s else s.(selected := scope, asked := false);
      if visible then Refresh(t) else t
    case Settle(k, answer) =>
      var scope := s.runs[k].scope;
      var t := s.(runs := s.runs[k := Run(scope, true)]);
      if s.selected == scope then t.(shown := Rendered(scope, answer)) else t
    case Finish(k) =>
      var t := s.(runs := s.runs[..k] + s.runs[k + 1..], inFlight := false);
      if s.selected == s.runs[k].scope then t else Refresh(t)
  }

  ghost predicate IsRun(states: seq<State>, events: seq<Event>) {
    && |states| == |events| + 1 && states[0] == START
    && forall i :: 0 <= i < |events| ==> Enabled(states[i], events[i]) && states[i + 1] == Step(states[i], events[i])
  }

  // ---- Safety -----------------------------------------------------------------------------

  /** Rows, an empty list or an error of this server; the notice without servers when none is selected. */
  predicate BelongsTo(shown: Shown, scope: string) {
    match shown
    case Nothing => false
    case Loading => false
    case NoServers => scope == ""
    case Rows(of, _) => of == scope
    case NoRows(of) => of == scope
    case NoData(of, _) => of == scope
  }

  predicate Quiet(s: State) {
    s.runs == []
  }

  predicate Inv(s: State) {
    && |s.runs| == (if s.inFlight then 1 else 0)
    && (s.runs != [] && s.runs[0].scope == "" ==> s.runs[0].settled)
    && (Quiet(s) && s.asked ==> BelongsTo(s.shown, s.selected))
    && (s.runs != [] && s.runs[0].settled && s.runs[0].scope == s.selected ==> BelongsTo(s.shown, s.selected))
  }

  /** The options go back to the server of a request whose answer was just thrown away, before its
      finally block: that block then sees no change and starts no other request. */
  predicate Slips(s: State, e: Event) {
    && e.Options? && e.scope != s.selected && !BelongsTo(s.shown, e.scope)
    && s.runs != [] && s.runs[0].settled && s.runs[0].scope == e.scope
  }

  /** A step keeps the guard's invariant exactly unless it slips. */
  lemma StepKeepsInv(s: State, e: Event)
    requires Inv(s) && Enabled(s, e)
    ensures Inv(Step(s, e)) <==> !Slips(s, e)
  {
  }

  lemma {:induction false} RunKeepsInv(states: seq<State>, events: seq<Event>, n: nat)
    requires IsRun(states, events) && n < |states|
    requires forall i :: 0 <= i < n ==> !Slips(states[i], events[i])
    ensures Inv(states[n])
  {
    if n > 0 {
      RunKeepsInv(states, events, n - 1);
      StepKeepsInv(states[n - 1], events[n - 1]);
    }
  }

  /** At most one request is in flight, slips or not. */
  predicate OneAtMost(s: State) {
    |s.runs| == if s.inFlight then 1 else 0
  }

  lemma {:induction false} AtMostOneRequest(states: seq<State>, events: seq<Event>, n: nat)
    requires IsRun(states, events) && n < |states|
    ensures OneAtMost(states[n])
  {
    if n > 0 {
      AtMostOneRequest(states, events, n - 1);
      assert Enabled(states[n - 1], events[n - 1]) && states[n] == Step(states[n - 1], events[n - 1]);
      StepKeepsOne(states[n - 1], events[n - 1]);
    }
  }

  lemma StepKeepsOne(s: State, e: Event)
    requires OneAtMost(s) && Enabled(s, e)
    ensures OneAtMost(Step(s, e))
  {
  }

  /** Whatever is put on screen is for the server selected at that moment. */
  lemma RenderedIsSelected(states: seq<State>, events: seq<Event>, n: nat)
    requires IsRun(states, events) && n < |events|
    requires states[n + 1].shown != states[n].shown
    ensures states[n + 1].shown == Loading || BelongsTo(states[n + 1].shown, states[n + 1].selected)
  {
    assert Enabled(states[n], events[n]) && states[n + 1] == Step(states[n], events[n]);
    RenderIsForSelected(states[n], events[n]);
  }

  lemma RenderIsForSelected(s: State, e: Event)
    requires Enabled(s, e)
    ensures var t := Step(s, e); t.shown == s.shown || t.shown == Loading || BelongsTo(t.shown, t.selected)
  {
    match e {
      case Settle(k, answer) =>
        assert BelongsTo(Rendered(s.runs[k].scope, answer), s.runs[k].scope);
      case _ =>
        RefreshShowsSelected(s);
    }
  }

  lemma RefreshShowsSelected(s: State)
    ensures Refresh(s).selected == s.selected
    ensures Refresh(s).shown == s.shown || (s.selected == "" && Refresh(s).shown == NoServers)
  {
  }

  /** Once nothing is in flight after a refresh was asked for, the view is the selected server's. */
  lemma QuietViewIsRight(states: seq<State>, events: seq<Event>, n: nat)
    requires IsRun(states, events) && n < |states|
    requires forall i :: 0 <= i < n ==> !Slips(states[i], events[i])
    requires Quiet(states[n]) && states[n].asked
    ensures BelongsTo(states[n].shown, states[n].selected)
  {
    RunKeepsInv(states, events, n);
  }

  /** The options change only while no answer waits for its finally block, as in the page. */
  ghost predicate OptionsWait(states: seq<State>, events: seq<Event>) {
    |events| < |states|
    && forall i :: 0 <= i < |events| && events[i].Options? ==> NoneSettled(states[i])
  }

  predicate NoneSettled(s: State) {
    forall k :: 0 <= k < |s.runs| ==> !s.runs[k].settled
  }

  lemma WaitingNeverSlips(s: State, e: Event)
    requires e.Options? ==> NoneSettled(s)
    ensures !Slips(s, e)
  {
  }

  /** In the page a quiet view after a refresh is right without exception. */
  lemma QuietPageIsRight(states: seq<State>, events: seq<Event>, n: nat)
    requires IsRun(states, events) && OptionsWait(states, events) && n < |states|
    requires Quiet(states[n]) && states[n].asked
    ensures BelongsTo(states[n].shown, states[n].selected)
  {
    PageNeverSlips(states, events);
    QuietViewIsRight(states, events, n);
  }

  lemma PageNeverSlips(states: seq<State>, events: seq<Event>)
    requires OptionsWait(states, events)
    ensures forall i :: 0 <= i < |events| ==> !Slips(states[i], events[i])
  {
    forall i | 0 <= i < |events|
      ensures !Slips(states[i], events[i])
    {
      WaitingNeverSlips(states[i], events[i]);
    }
  }

  /** The exception is real in the model: an update let in between an answer and its finally block
      can leave the view without the selected server's data and nothing in flight. */
  lemma SlipNeverLoads() returns (states: seq<State>, events: seq<Event>)
    ensures IsRun(states, events) && |events| == 5
    ensures var last := states[|events|];
            Quiet(last) && last.asked && last.selected == "a" && last.shown == Loading
  {
    events := [Select("a"), Select("b"), Settle(0, List(["x"])), Options("a", true), Finish(0)];
    var s0 := START;
    var s1 := Step(s0, events[0]);
    assert s1 == State("a", true, [Run("a", false)], Loading, true);
    var s2 := Step(s1, events[1]);
    assert s2 == State("b", true, [Run("a", false)], Loading, true);
    var s3 := Step(s2, events[2]);
    assert s3 == State("b", true, [Run("a", true)], Loading, true);
    var s4 := Step(s3, events[3]);
    assert s4 == State("a", true, [Run("a", true)], Loading, true);
    var s5 := Step(s4, events[4]);
    assert s5 == State("a", false, [], Loading, true);
    states := [s0, s1, s2, s3, s4, s5];
  }

  /** What an answer for a server puts on screen. */
  predicate Shows(shown: Shown, scope: string, answer: Answer) {
    match answer
    case List(rows) => if rows == [] then shown == NoRows(scope) else shown == Rows(scope, rows)
    case Refused(message) => shown == NoData(scope, message)
  }

  /** An event that neither brings another answer nor selects another server. */
  predicate Calm(e: Event, scope: string) {
    match e
    case Select(of) => of == scope
    case Options(of, _) => of == scope
    case Settle(_, _) => false
    case Tick => true
    case Finish(_) => true
  }

  /** The answer for the selected server is shown, its rows or its error, and stays until another answer
      comes or another server is selected. */
  lemma {:induction false} AnswerIsShown(states: seq<State>, events: seq<Event>, n: nat, m: nat)
    requires IsRun(states, events) && n < m < |states| && events[n].Settle?
    requires states[n].selected != "" && events[n].k < |states[n].runs|
    requires states[n].runs[events[n].k].scope == states[n].selected
    requires forall i :: n < i < m ==> Calm(events[i], states[n].selected)
    ensures Shows(states[m].shown, states[n].selected, events[n].answer) && states[m].selected == states[n].selected
    decreases m
  {
    var scope := states[n].selected;
    if m == n + 1 {
      assert Enabled(states[n], events[n]) && states[m] == Step(states[n], events[n]);
    } else {
      AnswerIsShown(states, events, n, m - 1);
      assert Enabled(states[m - 1], events[m - 1]) && states[m] == Step(states[m - 1], events[m - 1]);
      CalmKeeps(states[m - 1], events[m - 1], scope);
    }
  }

  lemma {:induction false} CalmKeeps(s: State, e: Event, scope: string)
    requires Enabled(s, e) && Calm(e, scope) && s.selected == scope != ""
    ensures Step(s, e).shown == s.shown && Step(s, e).selected == scope
  {
  }

  // ---- Clicks alone -----------------------------------------------------------------------

  ghost predicate OnlyClicks(events: seq<Event>) {
    forall i :: 0 <= i < |events| ==> !events[i].Options?
  }

  predicate NotAnother(s: State) {
    s.shown.Nothing? || s.shown.Loading? || BelongsTo(s.shown, s.selected)
  }

  lemma ClickKeepsNotAnother(s: State, e: Event)
    requires OneAtMost(s) && NotAnother(s) && Enabled(s, e) && !e.Options?
    ensures NotAnother(Step(s, e))
  {
  }

  /** While only clicks change the selection, no other server's data is on screen at any time. */
  lemma {:induction false} ClicksNeverShowAnother(states: seq<State>, events: seq<Event>, n: nat)
    requires IsRun(states, events) && n < |states| && OnlyClicks(events)
    ensures NotAnother(states[n])
  {
    if n > 0 {
      ClicksNeverShowAnother(states, events, n - 1);
      AtMostOneRequest(states, events, n - 1);
      ClickKeepsNotAnother(states[n - 1], events[n - 1]);
    }
  }

  // ---- Progress ---------------------------------------------------------------------------

  /** How many answers and finally blocks are still to come if the selection stays. */
  function Left(s: State): nat {
    if Quiet(s) then 0
    else
      (if s.runs[0].settled then 1 else 2)
      + if s.runs[0].scope == s.selected then 0 else if s.selected == "" then 1 else 2
  }

  predicate IsAnswer(e: Event) {
    e.Settle? || e.Finish?
  }

  lemma AnswersComeToAnEnd(s: State, e: Event)
    requires OneAtMost(s) && Enabled(s, e) && IsAnswer(e)
    ensures Left(Step(s, e)) == Left(s) - 1
    ensures Step(s, e).selected == s.selected && (s.asked ==> Step(s, e).asked)
  {
  }

  lemma NeverStuck(s: State, answer: Answer)
    requires OneAtMost(s) && !Quiet(s)
    ensures Enabled(s, Settle(0, answer)) || Enabled(s, Finish(0))
  {
  }

  /** If the selection stays, the view is quiet and right after exactly Left(s) answers and finally
      blocks, of which there are at most four: two requests. */
  lemma {:induction false} ViewConverges(states: seq<State>, events: seq<Event>, n: nat, m: nat)
    requires IsRun(states, events) && n <= m < |states| && states[n].asked
    requires forall i :: 0 <= i < m ==> !Slips(states[i], events[i])
    requires forall i :: n <= i < m ==> IsAnswer(events[i])
    ensures Left(states[n]) <= 4 && m - n <= Left(states[n])
    ensures Quiet(states[m]) <==> m - n == Left(states[n])
    ensures m - n == Left(states[n]) ==> BelongsTo(states[m].shown, states[n].selected)
  {
    Counted(states, events, n, m);
    AtMostOneRequest(states, events, m);
    AtMostOneRequest(states, events, n);
    RunKeepsInv(states, events, m);
  }

  /** In the page this needs no further condition. */
  lemma PageConverges(states: seq<State>, events: seq<Event>, n: nat, m: nat)
    requires IsRun(states, events) && OptionsWait(states, events) && n <= m < |states| && states[n].asked
    requires forall i :: n <= i < m ==> IsAnswer(events[i])
    ensures Left(states[n]) <= 4 && m - n <= Left(states[n])
    ensures Quiet(states[m]) <==> m - n == Left(states[n])
    ensures m - n == Left(states[n]) ==> BelongsTo(states[m].shown, states[n].selected)
  {
    PageNeverSlips(states, events);
    ViewConverges(states, events, n, m);
  }

  lemma {:induction false} Counted(states: seq<State>, events: seq<Event>, n: nat, m: nat)
    requires IsRun(states, events) && n <= m < |states| && states[n].asked
    requires forall i :: n <= i < m ==> IsAnswer(events[i])
    ensures Left(states[m]) == Left(states[n]) - (m - n)
    ensures states[m].selected == states[n].selected && states[m].asked
    decreases m - n
  {
    if n < m {
      Counted(states, events, n, m - 1);
      AtMostOneRequest(states, events, m - 1);
      assert Enabled(states[m - 1], events[m - 1]) && states[m] == Step(states[m - 1], events[m - 1]);
      CountedOnce(states[m - 1], events[m - 1], states[m]);
    }
  }

  lemma CountedOnce(s: State, e: Event, s': State)
    requires OneAtMost(s) && Enabled(s, e) && IsAnswer(e) && s' == Step(s, e)
    ensures Left(s') == Left(s) - 1 && s'.selected == s.selected && (s.asked ==> s'.asked)
  {
    AnswersComeToAnEnd(s, e);
  }

  // ---- The page ---------------------------------------------------------------------------

  /** The page's variables. A request that waits for its answer is kept in `runs`. */
  class View {
    var selected: string
    var inFlight: bool
    var runs: seq<Run>
    var shown: Shown
    ghost var asked: bool

    ghost function Value(): State
      reads this
    {
      State(selected, inFlight, runs, shown, asked)
    }

    constructor ()
      ensures Value() == START
    {
      selected, inFlight, runs, shown, asked := "", false, [], Nothing, false;
    }

    /** refreshContainers: runScopedRefresh up to its first await. */
    method RefreshContainers()
      modifies this
      ensures Value() == Refresh(old(Value()))
    {
      asked := true;
      if inFlight {
        return;
      }
      inFlight := true;
      var scope := selected;
      if scope == "" {
        shown := NoServers;
        runs := runs + [Run(scope, true)];
        return;
      }
      runs := runs + [Run(scope, false)];
    }

    /** The rest of loadContainers, once the answer is there. */
    method LoadContainers(k: nat, answer: Answer)
      requires Enabled(Value(), Settle(k, answer))
      modifies this
      ensures Value() == Step(old(Value()), Settle(k, answer))
    {
      var scope := runs[k].scope;
      runs := runs[k := Run(scope, true)];
      if scope != selected {
        return;
      }
      match answer {
        case Refused(message) =>
          shown := NoData(scope, message);
        case List(rows) =>
          if rows == [] {
            shown := NoRows(scope);
          } else {
            shown := Rows(scope, rows);
          }
      }
    }

    /** The finally block of runScopedRefresh. */
    method Finally(k: nat)
      requires Enabled(Value(), Finish(k))
      modifies this
      ensures Value() == Step(old(Value()), Finish(k))
    {
      var scope := runs[k].scope;
      runs := runs[..k] + runs[k + 1..];
      inFlight := false;
      if scope != selected {
        RefreshContainers();
      }
    }

    /** A click on a server. */
    method Click(scope: string)
      requires Enabled(Value(), Select(scope))
      modifies this
      ensures Value() == Step(old(Value()), Select(scope))
    {
      var changed := selected != scope;
      selected := scope;
      if changed {
        shown := Loading;
      }
      RefreshContainers();
    }

    /** The end of an update of the server options. */
    method UpdateOptions(options: seq<string>, visible: bool)
      modifies this
      ensures selected == if old(selected) in options then old(selected) else if options == [] then "" else options[0]
      ensures Value() == Step(old(Value()), Options(selected, visible))
    {
      var fallback := if options != [] then options[0] else "";
      var next := if selected in options then selected else fallback;
      asked := asked && selected == next;
      selected := next;
      if visible {
        RefreshContainers();
      }
    }
  }
}
