/** The ML guard: a per-process watcher registry and the decision logic of the
    monitor loop that buffers samples, asks the inference engine for a verdict
    and kills a malicious process that runs inside its jail. The inspector, the
    engine and the resolved working directory are inputs (`Poll`); threads,
    signals and the event log's I/O are outside the model. */
module MlGuard {
  import opened Wrappers
  import opened Telemetry
  import CLib

  datatype GuardConfig = GuardConfig(pollInterval: real, minSamples: int, killThreshold: real)

  const DefaultConfig: GuardConfig := GuardConfig(0.4, 8, 0.85)

  /** The sample buffer keeps at most this many of the newest samples. */
  const BufferCap: nat := 240

  /** A confidence change of at least this much is logged as an update. */
  const UpdateDelta: real := 0.2

  const MaliciousLabel: string := "malicious"

  // ---------------------------------------------------------------------------
  // The jail test

  predicate IsPrefix(p: string, s: string) {
    |p| <= |s| && s[..|p|] == p
  }

  /** `_is_process_in_jail` on already resolved paths: `cwd` is None when
      `/proc/<pid>/cwd` cannot be resolved. */
  predicate InJail(cwd: Option<string>, root: string) {
    cwd.Some? && (cwd.value == root || IsPrefix(root + "/", cwd.value))
  }

  /** Inside the jail means: the root itself, or the root followed by "/". */
  lemma InJailIff(c: string, root: string)
    ensures InJail(Some(c), root)
            <==> c == root || (|c| > |root| && c[..|root|] == root && c[|root|] == '/')
  {
    if |c| > |root| && c[..|root|] == root && c[|root|] == '/' {
      assert c[..|root| + 1] == c[..|root|] + [c[|root|]];
    }
    if IsPrefix(root + "/", c) {
      assert c[..|root|] == (root + "/")[..|root|];
    }
  }

  /** A directory of the jail is inside it. */
  lemma SubdirectoryInJail(root: string, rest: string)
    ensures InJail(Some(root + "/" + rest), root)
  {
    var c := root + "/" + rest;
    assert c[..|root| + 1] == root + "/";
  }

  /** A sibling whose name merely extends the root's ("/jailx" beside "/jail")
      is not inside. */
  lemma SiblingNotInJail(root: string, rest: string)
    requires rest != [] && rest[0] != '/'
    ensures !InJail(Some(root + rest), root)
  {
    var c := root + rest;
    InJailIff(c, root);
    assert c[|root|] == rest[0];
  }

  lemma JailxNotInJail()
    ensures !InJail(Some("/jailx"), "/jail")
    ensures InJail(Some("/jail/x"), "/jail") && InJail(Some("/jail"), "/jail")
  {
    SiblingNotInJail("/jail", "x");
    assert "/jail" + "x" == "/jailx";
    SubdirectoryInJail("/jail", "x");
    assert "/jail" + "/" + "x" == "/jail/x";
  }

  /** With "/" as the root the test compares against "//", so of the paths
      that do not begin with "//" only "/" itself is inside. */
  lemma SlashRootHoldsOnlyItself(c: string)
    requires !IsPrefix("//", c)
    ensures InJail(Some(c), "/") <==> c == "/"
  {
  }

  /** No working directory, no jail. */
  lemma UnresolvedCwdNotInJail(root: string)
    ensures !InJail(None, root)
  {
  }

  // ---------------------------------------------------------------------------
  // The sample buffer

  /** `samples.append(s)` followed by `samples.pop(0)` when over the cap. */
  function PushSample(buffer: seq<Sample>, s: Sample): (r: seq<Sample>)
    ensures |buffer| <= BufferCap ==> |r| <= BufferCap
    ensures r != [] && r[|r| - 1] == s
    ensures |buffer| < BufferCap ==> r == buffer + [s]
    ensures |buffer| >= BufferCap ==> r == buffer[1..] + [s]
  {
    var grown := buffer + [s];
    if |grown| > BufferCap then grown[1..] else grown
  }

  // ---------------------------------------------------------------------------
  // The monitor loop

  datatype Prediction = Prediction(verdict: string, confidence: real)

  datatype Action = Terminated | SkipTermination | Update | Exit

  /** One `_maybe_log_event` record: the action and the prediction it reports. */
  datatype GuardEvent = GuardEvent(action: Action, prediction: Prediction)

  /** What the world answers in one turn of the loop: whether the stop event
      is set, whether the process still runs, the sample taken (None when
      sampling raises), the engine's prediction for the buffered samples and
      the resolved working directory of the process. */
  datatype Poll = Poll(stopSet: bool, running: bool, sample: Option<Sample>,
                       prediction: Prediction, cwd: Option<string>)

  datatype LoopState = LoopState(
    buffer: seq<Sample>,
    lastLabel: Option<string>,
    lastConfidence: real,
    result: Option<Prediction>,
    terminated: bool,
    events: seq<GuardEvent>)

  const Initial: LoopState := LoopState([], None, 0.0, None, false, [])

  datatype Control = Continue | Break

  function Abs(x: real): real {
    if x < 0.0 then -x else x
  }

  predicate KillWorthy(config: GuardConfig, p: Prediction) {
    p.verdict == MaliciousLabel && p.confidence >= config.killThreshold
  }

  /** The change of prediction that an update event reports. */
  predicate Changed(lastLabel: Option<string>, lastConfidence: real, p: Prediction) {
    lastLabel != Some(p.verdict) || Abs(p.confidence - lastConfidence) >= UpdateDelta
  }

  /** The body of the loop for one poll that passed the loop condition. */
  function Step(config: GuardConfig, root: string, st: LoopState, poll: Poll): (LoopState, Control)
  {
    match poll.sample
    case None => (st, Break)
    case Some(s) =>
      var buffer := PushSample(st.buffer, s);
      if |buffer| < config.minSamples then (st.(buffer := buffer), Continue)
      else
        var p := poll.prediction;
        var st1 := st.(buffer := buffer, result := Some(p));
        if KillWorthy(config, p) then
          var decision := GuardEvent(if InJail(poll.cwd, root) then Terminated else SkipTermination, p);
          (st1.(terminated := st.terminated || decision.action == Terminated,
                events := st.events + [decision]), Break)
        else if Changed(st.lastLabel, st.lastConfidence, p) then
          (st1.(lastLabel := Some(p.verdict), lastConfidence := p.confidence,
                events := st.events + [GuardEvent(Update, p)]), Continue)
        else (st1, Continue)
  }

  /** What one turn of the loop does. */
  lemma StepSpec(config: GuardConfig, root: string, st: LoopState, poll: Poll)
    ensures var r := Step(config, root, st, poll);
      // sampling failed: leave the loop
      && (poll.sample.None? ==> r == (st, Break))
      // below min_samples: only the buffer changes, and the loop goes on
      && (poll.sample.Some? && |PushSample(st.buffer, poll.sample.value)| < config.minSamples ==>
            r == (st.(buffer := PushSample(st.buffer, poll.sample.value)), Continue))
      // the process is killed only when the verdict is malicious, confident enough and jailed
      && (r.0.terminated && !st.terminated ==> KillWorthy(config, poll.prediction) && InJail(poll.cwd, root))
      // ... and such a verdict past min_samples logs the kill when jailed, the skipped kill otherwise
      && (poll.sample.Some? && |PushSample(st.buffer, poll.sample.value)| >= config.minSamples &&
          KillWorthy(config, poll.prediction) ==>
            && r.0.events == st.events + [GuardEvent(if InJail(poll.cwd, root) then Terminated else SkipTermination,
                                                     poll.prediction)]
            && r.0.terminated == (st.terminated || InJail(poll.cwd, root)))
      // a kill-worthy verdict ends the loop whether or not the process is killed
      && (r.1 == Break <==>
            poll.sample.None? ||
            (|PushSample(st.buffer, poll.sample.value)| >= config.minSamples && KillWorthy(config, poll.prediction)))
      // an update is logged exactly when a verdict that is not kill-worthy
      // differs in label, or by at least 0.2 in confidence, from the remembered one
      && (r.0.events == st.events + [GuardEvent(Update, poll.prediction)] <==>
            poll.sample.Some? && |PushSample(st.buffer, poll.sample.value)| >= config.minSamples &&
            !KillWorthy(config, poll.prediction) &&
            Changed(st.lastLabel, st.lastConfidence, poll.prediction))
      // ... and only then are the remembered label and confidence replaced
      && (if r.0.events == st.events + [GuardEvent(Update, poll.prediction)]
          then r.0.lastLabel == Some(poll.prediction.verdict) && r.0.lastConfidence == poll.prediction.confidence
          else r.0.lastLabel == st.lastLabel && r.0.lastConfidence == st.lastConfidence)
  {
    if poll.sample.Some? && |PushSample(st.buffer, poll.sample.value)| >= config.minSamples {
      var p := poll.prediction;
      if KillWorthy(config, p) {
        var decision := GuardEvent(if InJail(poll.cwd, root) then Terminated else SkipTermination, p);
        assert (st.events + [decision])[|st.events|] == decision;
      }
    }
  }

  /** `while not stop_event.is_set() and inspector.is_running()`, from poll i on. */
  function Loop(config: GuardConfig, root: string, polls: seq<Poll>, i: nat, st: LoopState): LoopState
    decreases |polls| - i
  {
    if i >= |polls| || polls[i].stopSet || !polls[i].running then st
    else
      var (st', control) := Step(config, root, st, polls[i]);
      if control == Break then st' else Loop(config, root, polls, i + 1, st')
  }

  /** The exit event logged after the loop when a prediction was made and the
      process was not killed. */
  function Finish(st: LoopState): seq<GuardEvent> {
    if st.result.Some? && !st.terminated then st.events + [GuardEvent(Exit, st.result.value)]
    else st.events
  }

  /** The events one monitor loop logs. */
  function Monitor(config: GuardConfig, root: string, polls: seq<Poll>): seq<GuardEvent> {
    Finish(Loop(config, root, polls, 0, Initial))
  }

  /** The body of the loop for one poll: buffer the sample, predict once
      enough samples are buffered, then decide on a kill or log a changed
      prediction. The control result says whether the loop goes on. */
  method HandlePoll(config: GuardConfig, root: string, st: LoopState, poll: Poll)
    returns (next: LoopState, control: Control)
    ensures (next, control) == Step(config, root, st, poll)
  {
    next, control := st, Continue;
    if poll.sample.None? {
      return next, Break;
    }
    var samples := st.buffer + [poll.sample.value];
    if |samples| > BufferCap {
      samples := samples[1..];
    }
    next := next.(buffer := samples);
    if |samples| < config.minSamples {
      return;
    }
    var p := poll.prediction;
    next := next.(result := Some(p));
    if p.verdict == MaliciousLabel && p.confidence >= config.killThreshold {
      if InJail(poll.cwd, root) {
        next := next.(events := st.events + [GuardEvent(Terminated, p)], terminated := true);
      } else {
        next := next.(events := st.events + [GuardEvent(SkipTermination, p)]);
      }
      return next, Break;
    }
    if st.lastLabel != Some(p.verdict) || Abs(p.confidence - st.lastConfidence) >= UpdateDelta {
      next := next.(lastLabel := Some(p.verdict), lastConfidence := p.confidence,
                    events := st.events + [GuardEvent(Update, p)]);
    }
  }

/** The loop of `_monitor_loop` after the inspector has been created. */
  method MonitorPolls(config: GuardConfig, root: string, polls: seq<Poll>)
    returns (events: seq<GuardEvent>, killed: bool)
    ensures events == Monitor(config, root, polls)
    ensures killed <==> Logged(events, Terminated)
  {
    var st := Initial;
    var i: nat := 0;
    var running := true;
    while running && i < |polls| && !polls[i].stopSet && polls[i].running
      invariant i <= |polls|
      invariant running ==> Loop(config, root, polls, i, st) == Loop(config, root, polls, 0, Initial)
      invariant !running ==> st == Loop(config, root, polls, 0, Initial)
      decreases |polls| - i, running
    {
      var control;
      st, control := HandlePoll(config, root, st, polls[i]);
      if control == Break {
        running := false;
      } else {
        i := i + 1;
      }
    }
    KilledIffLogged(config, root, polls);
    events := st.events;
    if st.result.Some? && !st.terminated {
      events := events + [GuardEvent(Exit, st.result.value)];
    }
    killed := st.terminated;
  }

  // ---------------------------------------------------------------------------
  // What the loop keeps

  predicate AllUpdates(events: seq<GuardEvent>) {
    forall k :: 0 <= k < |events| ==> events[k].action == Update
  }

  /** Every update reports a change against the event before it. */
  predicate EachChanged(events: seq<GuardEvent>) {
    forall k :: 0 < k < |events| && events[k].action == Update ==>
      Changed(Some(events[k - 1].prediction.verdict), events[k - 1].prediction.confidence, events[k].prediction)
  }

  /** Every kill carries a malicious, confident verdict that a poll with a
      jailed working directory predicted (`KillDecidedOnStoppingPoll` names
      the poll the decision was taken on). */
  predicate KillsJustified(config: GuardConfig, root: string, polls: seq<Poll>, events: seq<GuardEvent>) {
    forall k :: 0 <= k < |events| && events[k].action == Terminated ==>
      KillWorthy(config, events[k].prediction) &&
      exists i :: 0 <= i < |polls| && polls[i].prediction == events[k].prediction && InJail(polls[i].cwd, root)
  }

  /** The state of a loop that is still going: only updates logged so far. */
  predicate Live(config: GuardConfig, root: string, polls: seq<Poll>, st: LoopState) {
    && |st.buffer| <= BufferCap
    && !st.terminated
    && AllUpdates(st.events)
    && EachChanged(st.events)
    && (st.result.Some? <==> st.events != [])
    && (st.events == [] ==> st.lastLabel.None?)
    && (st.events != [] ==>
          st.lastLabel == Some(st.events[|st.events| - 1].prediction.verdict) &&
          st.lastConfidence == st.events[|st.events| - 1].prediction.confidence)
  }

  /** The state the loop ends in. */
  predicate Consistent(config: GuardConfig, root: string, polls: seq<Poll>, st: LoopState) {
    var evs := st.events;
    && |st.buffer| <= BufferCap
    && (st.result.Some? <==> evs != [])
    && (forall k :: 0 <= k < |evs| - 1 ==> evs[k].action == Update)
    && EachChanged(evs)
    && (forall k :: 0 <= k < |evs| ==> evs[k].action != Exit)
    && (forall k :: 0 <= k < |evs| && evs[k].action.SkipTermination? ==> KillWorthy(config, evs[k].prediction))
    && KillsJustified(config, root, polls, evs)
    && (st.terminated <==> evs != [] && evs[|evs| - 1].action == Terminated)
  }

  lemma StepKeeps(config: GuardConfig, root: string, polls: seq<Poll>, i: nat, st: LoopState)
    requires i < |polls| && Live(config, root, polls, st)
    ensures var (st', control) := Step(config, root, st, polls[i]);
      (control == Continue ==> Live(config, root, polls, st')) &&
      Consistent(config, root, polls, st')
  {
    var poll := polls[i];
    if poll.sample.None? {
      LiveConsistent(config, root, polls, st);
    } else {
      var buffer := PushSample(st.buffer, poll.sample.value);
      if |buffer| < config.minSamples {
        LiveConsistent(config, root, polls, st.(buffer := buffer));
      } else {
        var p := poll.prediction;
        var st1 := st.(buffer := buffer, result := Some(p));
        if KillWorthy(config, p) {
          var decision := GuardEvent(if InJail(poll.cwd, root) then Terminated else SkipTermination, p);
          var st' := st1.(terminated := st.terminated || decision.action == Terminated,
                          events := st.events + [decision]);
          assert Step(config, root, st, poll).0 == st';
          DecisionConsistent(config, root, polls, i, st, st');
        } else if Changed(st.lastLabel, st.lastConfidence, p) {
          var st' := st1.(lastLabel := Some(p.verdict), lastConfidence := p.confidence,
                          events := st.events + [GuardEvent(Update, p)]);
          assert Step(config, root, st, poll).0 == st';
          UpdateLive(config, root, polls, st, st', p);
          LiveConsistent(config, root, polls, st');
        } else {
          LiveConsistent(config, root, polls, st1);
        }
      }
    }
  }

  /** A live state is a consistent one. */
  lemma LiveConsistent(config: GuardConfig, root: string, polls: seq<Poll>, st: LoopState)
    requires Live(config, root, polls, st)
    ensures Consistent(config, root, polls, st)
  {
  }

  /** Logging an update that reports a change keeps the state live. */
  lemma UpdateLive(config: GuardConfig, root: string, polls: seq<Poll>, st: LoopState, st': LoopState, p: Prediction)
    requires Live(config, root, polls, st) && Changed(st.lastLabel, st.lastConfidence, p)
    requires |st'.buffer| <= BufferCap && !st'.terminated && st'.result == Some(p)
    requires st'.events == st.events + [GuardEvent(Update, p)]
    requires st'.lastLabel == Some(p.verdict) && st'.lastConfidence == p.confidence
    ensures Live(config, root, polls, st')
  {
    var evs := st'.events;
    assert evs[..|evs| - 1] == st.events;
  }

  /** A kill decision for poll i ends the loop in a consistent state. */
  lemma DecisionConsistent(config: GuardConfig, root: string, polls: seq<Poll>, i: nat, st: LoopState, st': LoopState)
    requires i < |polls| && Live(config, root, polls, st) && KillWorthy(config, polls[i].prediction)
    requires |st'.buffer| <= BufferCap && st'.result.Some?
    requires var a := if InJail(polls[i].cwd, root) then Terminated else SkipTermination;
      st'.events == st.events + [GuardEvent(a, polls[i].prediction)] && st'.terminated == (a == Terminated)
    ensures Consistent(config, root, polls, st')
  {
    var evs, n := st'.events, |st.events|;
    assert |evs| == n + 1;
    assert forall k :: 0 <= k < n ==> evs[k] == st.events[k];
    assert evs[n].prediction == polls[i].prediction && !evs[n].action.Update? && !evs[n].action.Exit?;
    assert forall k :: 0 <= k < |evs| - 1 ==> evs[k].action == Update;
    assert EachChanged(evs) by {
      forall k | 0 < k < |evs| && evs[k].action == Update
        ensures Changed(Some(evs[k - 1].prediction.verdict), evs[k - 1].prediction.confidence, evs[k].prediction)
      {
        assert k < n;
      }
    }
    assert forall k :: 0 <= k < |evs| ==> evs[k].action != Exit;
    assert forall k :: 0 <= k < |evs| && evs[k].action.SkipTermination? ==> KillWorthy(config, evs[k].prediction);
    assert KillsJustified(config, root, polls, evs) by {
      forall k | 0 <= k < |evs| && evs[k].action == Terminated
        ensures KillWorthy(config, evs[k].prediction)
        ensures exists j :: 0 <= j < |polls| && polls[j].prediction == evs[k].prediction && InJail(polls[j].cwd, root)
      {
        assert k == n;
      }
    }
  }

  lemma {:induction false} LoopConsistent(config: GuardConfig, root: string, polls: seq<Poll>, i: nat, st: LoopState)
    requires Live(config, root, polls, st)
    ensures Consistent(config, root, polls, Loop(config, root, polls, i, st))
    decreases |polls| - i
  {
    if i < |polls| && !polls[i].stopSet && polls[i].running {
      StepKeeps(config, root, polls, i, st);
      var (st', control) := Step(config, root, st, polls[i]);
      if control == Continue {
        LoopConsistent(config, root, polls, i + 1, st');
      }
    } else {
      assert st.events == [] || st.events[..|st.events| - 1] + [st.events[|st.events| - 1]] == st.events;
    }
  }

  // ---------------------------------------------------------------------------
  // Properties of the events a monitor loop logs

  predicate Logged(events: seq<GuardEvent>, a: Action) {
    exists k :: 0 <= k < |events| && events[k].action == a
  }

  /** The log of one loop: updates, each reporting a change; at most one kill
      decision, last (a kill) or followed only by the exit event (a skipped
      kill); every kill carrying a malicious, confident verdict that a jailed
      poll predicted; and an exit event exactly when something was predicted and the
      process was not killed. */
  lemma MonitorLog(config: GuardConfig, root: string, polls: seq<Poll>)
    ensures var evs := Monitor(config, root, polls);
      && KillsJustified(config, root, polls, evs)
      && (forall k :: 0 <= k < |evs| && evs[k].action.SkipTermination? ==> KillWorthy(config, evs[k].prediction))
      && (forall k :: 0 <= k < |evs| && evs[k].action.Terminated? ==> k == |evs| - 1)
      && (forall k :: 0 <= k < |evs| && evs[k].action.SkipTermination? ==>
            k == |evs| - 2 && evs[k + 1].action.Exit?)
      && (forall k :: 0 <= k < |evs| && evs[k].action.Exit? ==> k == |evs| - 1)
      && EachChanged(evs)
      && (Logged(evs, Exit) <==> (exists k :: 0 <= k < |evs| && !evs[k].action.Exit?) && !Logged(evs, Terminated))
  {
    var st := Loop(config, root, polls, 0, Initial);
    LoopConsistent(config, root, polls, 0, Initial);
    var evs := Monitor(config, root, polls);
    assert evs == Finish(st);
    if st.result.Some? && !st.terminated {
      assert evs == st.events + [GuardEvent(Exit, st.result.value)];
      assert evs[|evs| - 1].action.Exit?;
      assert !evs[0].action.Exit?;
    } else {
      assert evs == st.events;
      if st.result.Some? {
        assert evs[|evs| - 1].action == Terminated;
      }
    }
  }

  /** The loop ends with the process killed exactly when the log records a
      kill. */
  lemma KilledIffLogged(config: GuardConfig, root: string, polls: seq<Poll>)
    ensures Loop(config, root, polls, 0, Initial).terminated <==> Logged(Monitor(config, root, polls), Terminated)
  {
    var st := Loop(config, root, polls, 0, Initial);
    LoopConsistent(config, root, polls, 0, Initial);
    var evs := Monitor(config, root, polls);
    if st.result.Some? && !st.terminated {
      assert evs == st.events + [GuardEvent(Exit, st.result.value)];
      forall k | 0 <= k < |evs| ensures evs[k].action != Terminated {
        if k < |st.events| - 1 {
          assert evs[k] == st.events[k];
        }
      }
    } else if st.terminated {
      assert evs[|evs| - 1].action == Terminated;
    } else {
      assert evs == st.events == [];
    }
  }

  /** The index of the poll at which the loop from poll i stops: the poll
      whose turn broke it, or the first that failed the loop condition
      (|polls| when none did). */
  function StoppingPoll(config: GuardConfig, root: string, polls: seq<Poll>, i: nat, st: LoopState): (j: nat)
    ensures i <= j && (i <= |polls| ==> j <= |polls|)
    decreases |polls| - i
  {
    if i >= |polls| || polls[i].stopSet || !polls[i].running then i
    else
      var (st', control) := Step(config, root, st, polls[i]);
      if control == Break then i else StoppingPoll(config, root, polls, i + 1, st')
  }

  /** From a state that has logged only updates, one turn logs only an
      update when it goes on; when it breaks after logging something else,
      that event is the decision on this poll. */
  lemma StepDecision(config: GuardConfig, root: string, st: LoopState, poll: Poll)
    requires AllUpdates(st.events)
    ensures var (st', control) := Step(config, root, st, poll);
      && (control == Continue ==> AllUpdates(st'.events))
      && (control == Break && st'.events != [] && !st'.events[|st'.events| - 1].action.Update? ==>
            && poll.sample.Some? && KillWorthy(config, poll.prediction)
            && st'.events[|st'.events| - 1] ==
                 GuardEvent(if InJail(poll.cwd, root) then Terminated else SkipTermination, poll.prediction))
  {
    var (st', control) := Step(config, root, st, poll);
    if st'.events != st.events {
      var e := st'.events[|st'.events| - 1];
      assert st'.events == st.events + [e];
    } else if st.events != [] {
      assert st.events[|st.events| - 1].action == Update;
    }
  }

  /** From a state that has logged only updates, a decision the loop logs
      is its last event, and it was taken on the stopping poll: that poll
      passed the loop condition, carried a sample and a malicious, confident
      verdict, and its working directory decides between a kill and a
      skipped kill. */
  lemma {:induction false} DecisionOnStoppingPoll(config: GuardConfig, root: string, polls: seq<Poll>,
                                                  i: nat, st: LoopState)
    requires AllUpdates(st.events)
    ensures var evs := Loop(config, root, polls, i, st).events;
      var j := StoppingPoll(config, root, polls, i, st);
      evs != [] && !evs[|evs| - 1].action.Update? ==>
        && j < |polls| && !polls[j].stopSet && polls[j].running && polls[j].sample.Some?
        && KillWorthy(config, polls[j].prediction)
        && evs[|evs| - 1] == GuardEvent(if InJail(polls[j].cwd, root) then Terminated else SkipTermination,
                                        polls[j].prediction)
    decreases |polls| - i
  {
    if i < |polls| && !polls[i].stopSet && polls[i].running {
      StepDecision(config, root, st, polls[i]);
      var r := Step(config, root, st, polls[i]);
      if r.1 == Continue {
        assert Loop(config, root, polls, i, st) == Loop(config, root, polls, i + 1, r.0);
        assert StoppingPoll(config, root, polls, i, st) == StoppingPoll(config, root, polls, i + 1, r.0);
        DecisionOnStoppingPoll(config, root, polls, i + 1, r.0);
      } else {
        assert Loop(config, root, polls, i, st) == r.0;
        assert StoppingPoll(config, root, polls, i, st) == i;
      }
    } else {
      assert Loop(config, root, polls, i, st) == st;
      if st.events != [] {
        assert st.events[|st.events| - 1].action == Update;
      }
    }
  }

  /** Every kill or skipped kill in the log of a monitor loop was decided on
      the poll that stopped the loop: its verdict is that poll's prediction,
      malicious and confident, and the process is killed exactly when that
      poll's working directory was in the jail. */
  lemma KillDecidedOnStoppingPoll(config: GuardConfig, root: string, polls: seq<Poll>)
    ensures var evs := Monitor(config, root, polls);
      var j := StoppingPoll(config, root, polls, 0, Initial);
      forall k :: 0 <= k < |evs| && (evs[k].action.Terminated? || evs[k].action.SkipTermination?) ==>
        && j < |polls| && !polls[j].stopSet && polls[j].running && polls[j].sample.Some?
        && KillWorthy(config, polls[j].prediction)
        && evs[k].prediction == polls[j].prediction
        && (evs[k].action.Terminated? <==> InJail(polls[j].cwd, root))
  {
    var r := Loop(config, root, polls, 0, Initial);
    LoopConsistent(config, root, polls, 0, Initial);
    DecisionOnStoppingPoll(config, root, polls, 0, Initial);
    var evs := Monitor(config, root, polls);
    forall k | 0 <= k < |evs| && (evs[k].action.Terminated? || evs[k].action.SkipTermination?)
      ensures k == |r.events| - 1 && evs[k] == r.events[k]
    {
      if r.result.Some? && !r.terminated {
        assert evs == r.events + [GuardEvent(Exit, r.result.value)];
      }
    }
  }
  lemma {:induction false} QuietBelowMinSamples(config: GuardConfig, root: string, polls: seq<Poll>, i: nat, st: LoopState)
    requires st.events == [] && st.result.None?
    requires |st.buffer| + (|polls| - i) < config.minSamples ||
             (config.minSamples > BufferCap && |st.buffer| <= BufferCap)
    ensures Loop(config, root, polls, i, st).events == [] && Loop(config, root, polls, i, st).result.None?
    decreases |polls| - i
  {
    if i < |polls| && !polls[i].stopSet && polls[i].running {
      var (st', control) := Step(config, root, st, polls[i]);
      if control == Continue {
        QuietBelowMinSamples(config, root, polls, i + 1, st');
      }
    }
  }

  /** Nothing is predicted, so nothing is logged, while fewer than min_samples
      samples can have been buffered: when the loop polls fewer times than
      min_samples, or when min_samples exceeds the 240-sample cap. */
  lemma NoEventsBelowMinSamples(config: GuardConfig, root: string, polls: seq<Poll>)
    requires |polls| < config.minSamples || config.minSamples > BufferCap
    ensures Monitor(config, root, polls) == []
  {
    QuietBelowMinSamples(config, root, polls, 0, Initial);
  }

  // ---------------------------------------------------------------------------
  // The guard and its registry

  /** What a registered watcher was started with (its thread and stop event
      are not modelled). */
  datatype Watcher = Watcher(jailRoot: string, command: seq<string>, runId: string)

  /** `run_id or f"live-{pid}"`. */
  function RunIdFor(pid: int, runId: Option<string>): string {
    if runId.None? || runId.value == "" then "live-" + CLib.IntToDecimal(pid) else runId.value
  }

  class MLGuard {
    const config: GuardConfig
    var threads: map<int, Watcher>

    constructor (config: Option<GuardConfig>)
      ensures this.config == config.GetOr(DefaultConfig)
      ensures threads == map[]
    {
      this.config := config.GetOr(DefaultConfig);
      threads := map[];
    }

    /** Registers a watcher for `pid` unless one is already registered. */
    method Watch(pid: int, jailRoot: string, command: seq<string>, runId: Option<string>)
      modifies this
      ensures pid in old(threads) ==> threads == old(threads)
      ensures pid !in old(threads) ==>
        threads == old(threads)[pid := Watcher(jailRoot, command, RunIdFor(pid, runId))]
    {
      if pid in threads {
        return;
      }
      threads := threads[pid := Watcher(jailRoot, command, RunIdFor(pid, runId))];
    }

    /** Unregisters `pid`; a pid that is not registered is left alone. */
    method Stop(pid: int)
      modifies this
      ensures threads == old(threads) - {pid}
      ensures pid !in threads
    {
      if pid !in threads {
        assert threads - {pid} == threads;
        return;
      }
      threads := threads - {pid};
    }

    /** `_monitor_loop`: when the inspector cannot be created it returns at
        once, leaving the registration in place; otherwise it runs the loop and
        unregisters `pid`. */
    method MonitorLoop(pid: int, jailRoot: string, inspectorCreated: bool, polls: seq<Poll>)
      returns (events: seq<GuardEvent>, killed: bool)
      modifies this
      ensures !inspectorCreated ==> events == [] && !killed && threads == old(threads)
      ensures inspectorCreated ==> events == Monitor(config, jailRoot, polls)
      ensures inspectorCreated ==> threads == old(threads) - {pid}
      ensures killed <==> Logged(events, Terminated)
    {
      if !inspectorCreated {
        return [], false;
      }
      events, killed := MonitorPolls(config, jailRoot, polls);
      Stop(pid);
    }
  }
}
