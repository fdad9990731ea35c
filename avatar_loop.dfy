/** The Qt event loop that drives the avatar, as a dispatcher: each event is either a
    call of a public operation or a timeout of one of the five timers wired up in
    _setup_timers. A timeout runs its callback only while that timer is running, and
    the single-shot reopen timer stops itself when it fires. */
module AvatarLoop {
  import opened AvatarMachine

  datatype Event =
    | SpeakCall(text: string)
    | StartCall(firstBlink: int)
    | ExclamationCall(on: bool)
    | PaleCall(on: bool)
    | BlinkTimeout(nextBlink: int)
    | BlinkCloseTimeout
    | MouthTimeout
    | TextTimeout
    | MessageCheckTimeout

  /** The random delays an event carries are ones random.randint(2000, 6000) can return. */
  predicate WellFormed(e: Event)
  {
    match e
    case StartCall(d) => IsBlinkDelay(d)
    case BlinkTimeout(d) => IsBlinkDelay(d)
    case _ => true
  }

  /** Whether event e runs its callback in state s: a public call always does, a
      timeout only while its timer is running. */
  predicate Fires(s: AvatarState, e: Event)
  {
    match e
    case BlinkTimeout(_) => s.blinkTimer.active
    case BlinkCloseTimeout => s.blinkCloseTimer.active
    case MouthTimeout => s.mouthTimer.active
    case TextTimeout => s.textTimer.active
    case MessageCheckTimeout => s.messageCheckTimer.active
    case _ => true
  }

  /** The state after event e is dispatched in s, as Qt's event loop does it: a timeout
      of a stopped timer does nothing; the single-shot reopen, when it fires, opens the
      eyes and is no longer pending; no callback restarts or stops the poll; only speak
      and the poll touch the queue; only the public setters touch the overlays. */
  function Step(s: AvatarState, e: Event): (r: AvatarState)
    ensures !Fires(s, e) ==> r == s
    ensures e.BlinkCloseTimeout? && Fires(s, e) ==> !r.eyesClosed && !r.blinkCloseTimer.active
    ensures r.messageCheckTimer == s.messageCheckTimer
    ensures !e.SpeakCall? && !e.MessageCheckTimeout? ==> r.messageQueue == s.messageQueue
    ensures !e.ExclamationCall? ==> r.exclamationVisible == s.exclamationVisible
    ensures !e.PaleCall? ==> r.paleVisible == s.paleVisible
  {
    match e
    case SpeakCall(t) => Speak(s, t)
    case StartCall(d) => Start(s, d)
    case ExclamationCall(on) => SetExclamation(s, on)
    case PaleCall(on) => SetPale(s, on)
    case BlinkTimeout(d) => if s.blinkTimer.active then ToggleBlink(s, d) else s
    case BlinkCloseTimeout =>
      if s.blinkCloseTimer.active then OpenEyes(s.(blinkCloseTimer := s.blinkCloseTimer.Stop())) else s
    case MouthTimeout => if s.mouthTimer.active then ToggleMouth(s) else s
    case TextTimeout => if s.textTimer.active then UpdateText(s) else s
    case MessageCheckTimeout => if s.messageCheckTimer.active then CheckMessages(s) else s
  }

  function Run(s: AvatarState, evs: seq<Event>): AvatarState
    decreases |evs|
  {
    if evs == [] then s else Run(Step(s, evs[0]), evs[1..])
  }

  /** The text whose speech act event e begins in state s, if any. */
  function BegunBy(s: AvatarState, e: Event): seq<string>
  {
    if e.MessageCheckTimeout? && s.messageCheckTimer.active && !s.speaking && |s.messageQueue| > 0
    then [s.messageQueue[0]]
    else []
  }

  /** The texts whose speech acts begin while evs run from s, in the order they begin. */
  function Begun(s: AvatarState, evs: seq<Event>): seq<string>
    decreases |evs|
  {
    if evs == [] then [] else BegunBy(s, evs[0]) + Begun(Step(s, evs[0]), evs[1..])
  }

  /** The text event e passes to speak, if any. */
  function EnqueuedBy(e: Event): seq<string>
  {
    if e.SpeakCall? then [e.text] else []
  }

  /** The texts that evs pass to speak, in call order. */
  function Enqueued(evs: seq<Event>): seq<string>
    decreases |evs|
  {
    if evs == [] then [] else EnqueuedBy(evs[0]) + Enqueued(evs[1..])
  }

  /** Under the event loop the eyes are closed exactly while the reopen is pending. */
  predicate BlinkCycle(s: AvatarState)
  {
    s.eyesClosed == s.blinkCloseTimer.active
  }

  predicate Reachable(s: AvatarState)
  {
    Inv(s) && BlinkCycle(s)
  }

  lemma StepKeepsReachable(s: AvatarState, e: Event)
    requires Reachable(s) && WellFormed(e)
    ensures Reachable(Step(s, e))
  {
  }

  /** Every state the event loop can reach from construction keeps Inv and BlinkCycle. */
  lemma {:induction false} RunKeepsReachable(s: AvatarState, evs: seq<Event>)
    requires Reachable(s)
    requires forall i :: 0 <= i < |evs| ==> WellFormed(evs[i])
    ensures Reachable(Run(s, evs))
    decreases |evs|
  {
    if evs != [] {
      StepKeepsReachable(s, evs[0]);
      RunKeepsReachable(Step(s, evs[0]), evs[1..]);
    }
  }

  lemma InitReachable(evs: seq<Event>)
    requires forall i :: 0 <= i < |evs| ==> WellFormed(evs[i])
    ensures Reachable(Run(Init(), evs))
  {
    RunKeepsReachable(Init(), evs);
  }

  /** The number of text-scroll timeouts among evs. */
  function TextTicks(evs: seq<Event>): nat
    decreases |evs|
  {
    if evs == [] then 0 else (if evs[0].TextTimeout? then 1 else 0) + TextTicks(evs[1..])
  }

  /** A speech act in progress, with any other events interleaved (mouth toggles,
      blinks, polls, calls of speak and the setters), is still on after k <= |text|
      scroll timeouts, showing exactly text[k..]. */
  lemma {:induction false} SpeechActUnderLoop(s: AvatarState, evs: seq<Event>)
    requires s.speaking && s.textTimer.active
    requires TextTicks(evs) <= |s.currentText|
    ensures Run(s, evs).speaking && Run(s, evs).textTimer.active
    ensures Run(s, evs).currentText == s.currentText[TextTicks(evs)..]
    decreases |evs|
  {
    if evs != [] {
      var e, rest := evs[0], evs[1..];
      var s' := Step(s, e);
      assert Run(s, evs) == Run(s', rest);
      StepDuringSpeech(s, e);
      SpeechActUnderLoop(s', rest);
      assert s'.currentText[TextTicks(rest)..] == s.currentText[TextTicks(evs)..];
    }
  }

  /** One event during a speech act: a scroll timeout drops one character, any other
      event leaves the text alone, and the act goes on. */
  lemma StepDuringSpeech(s: AvatarState, e: Event)
    requires s.speaking && s.textTimer.active
    requires e.TextTimeout? ==> |s.currentText| > 0
    ensures Step(s, e).speaking && Step(s, e).textTimer.active
    ensures Step(s, e).currentText == if e.TextTimeout? then s.currentText[1..] else s.currentText
  {
  }

  /** Under the event loop a speech act of text ends at its (|text| + 1)-th scroll
      timeout, whatever else happens in between: the text is hidden, both timers stop,
      the mouth is closed and speaking is over. */
  lemma SpeechActEndsUnderLoop(s: AvatarState, evs: seq<Event>)
    requires s.speaking && s.textTimer.active
    requires TextTicks(evs) == |s.currentText|
    ensures var f := Step(Run(s, evs), TextTimeout);
      && !f.speaking && !f.textVisible && !f.textTimer.active && !f.mouthTimer.active && f.mouthClose
  {
    SpeechActUnderLoop(s, evs);
  }

  /** One event either begins the text at the head of the queue, which is then the
      text being spoken, or appends to its tail, or leaves the queue alone. */
  lemma StepIsFifo(s: AvatarState, e: Event)
    ensures BegunBy(s, e) + Step(s, e).messageQueue == s.messageQueue + EnqueuedBy(e)
    ensures BegunBy(s, e) != [] ==> Step(s, e).speaking && Step(s, e).currentText == BegunBy(s, e)[0]
  {
    if BegunBy(s, e) != [] {
      assert [s.messageQueue[0]] + s.messageQueue[1..] == s.messageQueue;
    }
  }

  /** FIFO: the texts begun so far followed by those still queued are the texts that
      were queued at the start followed by those passed to speak since, in order. */
  lemma {:induction false} RunIsFifo(s: AvatarState, evs: seq<Event>)
    ensures Begun(s, evs) + Run(s, evs).messageQueue == s.messageQueue + Enqueued(evs)
    decreases |evs|
  {
    if evs != [] {
      var e, rest := evs[0], evs[1..];
      var s' := Step(s, e);
      StepIsFifo(s, e);
      RunIsFifo(s', rest);
      assert Begun(s, evs) == BegunBy(s, e) + Begun(s', rest);
      assert Run(s, evs) == Run(s', rest);
      assert Enqueued(evs) == EnqueuedBy(e) + Enqueued(rest);
      Regroup(BegunBy(s, e), Begun(s', rest), Run(s', rest).messageQueue,
              s'.messageQueue, Enqueued(rest), s.messageQueue, EnqueuedBy(e));
    }
  }

  /** The sequence algebra of one step of RunIsFifo. */
  lemma Regroup<T>(a: seq<T>, b: seq<T>, q: seq<T>, m: seq<T>, r: seq<T>, m0: seq<T>, x: seq<T>)
    requires b + q == m + r
    requires a + m == m0 + x
    ensures (a + b) + q == m0 + (x + r)
  {
    calc {
      (a + b) + q;
      a + (b + q);
      a + (m + r);
      (a + m) + r;
      (m0 + x) + r;
    }
  }
}
