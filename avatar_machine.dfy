/** The avatar widget's animation and speech state, and the transition each of its
    timer callbacks and public operations performs on it, as values. The class
    Avatar.M5StackAvatar updates the same state in place and is specified by these
    functions. */
module AvatarMachine {

  /** A Qt timer as the callbacks observe it: whether it is running and the interval
      (in milliseconds) it was last started with. */
  datatype Timer = Timer(active: bool, interval: int)
  {
    /** QTimer.start(ms): (re)starts the timer with interval ms. */
    function Start(ms: int): Timer { Timer(true, ms) }

    /** QTimer.stop(): the timer stops; its interval is kept. */
    function Stop(): Timer { this.(active := false) }
  }

  /** A freshly constructed QTimer: not running, interval 0. */
  const NEW_TIMER := Timer(false, 0)

  const BLINK_TERM_MS := 500
  const BLINK_MIN_MS := 2000
  const BLINK_MAX_MS := 6000
  const MOUTH_PERIOD_MS := 200
  const TEXT_PERIOD_MS := 200
  const MESSAGE_CHECK_MS := 100

  /** The values random.randint(2000, 6000) can return: both ends included. */
  predicate IsBlinkDelay(d: int) { BLINK_MIN_MS <= d <= BLINK_MAX_MS }

  datatype AvatarState = AvatarState(
    eyesClosed: bool,
    mouthClose: bool,
    exclamationVisible: bool,
    paleVisible: bool,
    currentText: string,
    textVisible: bool,
    speaking: bool,
    messageQueue: seq<string>,
    blinkTimer: Timer,
    blinkCloseTimer: Timer,
    mouthTimer: Timer,
    textTimer: Timer,
    messageCheckTimer: Timer)

  /** The state right after construction: eyes open, mouth closed, nothing shown,
      an empty queue, and only the 100 ms message poll running. */
  function Init(): AvatarState
  {
    AvatarState(
      eyesClosed := false, mouthClose := true, exclamationVisible := false,
      paleVisible := false, currentText := "", textVisible := false, speaking := false,
      messageQueue := [],
      blinkTimer := NEW_TIMER, blinkCloseTimer := NEW_TIMER, mouthTimer := NEW_TIMER,
      textTimer := NEW_TIMER, messageCheckTimer := NEW_TIMER.Start(MESSAGE_CHECK_MS))
  }

  /** What every operation keeps: a speech act is on exactly when the text is shown
      and both the text-scroll and the mouth timers run (at 200 ms); the mouth is
      closed when idle; closed eyes always have their 500 ms reopen armed; a running
      blink timer has a delay randint can produce; the poll always runs. */
  predicate Inv(s: AvatarState)
  {
    && s.speaking == s.textVisible
    && s.textVisible == s.textTimer.active
    && s.textTimer.active == s.mouthTimer.active
    && (s.speaking ==> s.textTimer.interval == TEXT_PERIOD_MS && s.mouthTimer.interval == MOUTH_PERIOD_MS)
    && (!s.speaking ==> s.mouthClose)
    && (s.eyesClosed ==> s.blinkCloseTimer.active)
    && (s.blinkCloseTimer.active ==> s.blinkCloseTimer.interval == BLINK_TERM_MS)
    && (s.blinkTimer.active ==> IsBlinkDelay(s.blinkTimer.interval))
    && s.messageCheckTimer == NEW_TIMER.Start(MESSAGE_CHECK_MS)
  }

  /** toggle_blink, with nextBlink the value random.randint returned. */
  function ToggleBlink(s: AvatarState, nextBlink: int): AvatarState
  {
    var closed :=
      if !s.eyesClosed then s.(eyesClosed := true, blinkCloseTimer := s.blinkCloseTimer.Start(BLINK_TERM_MS))
      else s;
    closed.(blinkTimer := closed.blinkTimer.Start(nextBlink))
  }

  /** open_eyes */
  function OpenEyes(s: AvatarState): AvatarState { s.(eyesClosed := false) }

  /** toggle_mouth */
  function ToggleMouth(s: AvatarState): AvatarState { s.(mouthClose := !s.mouthClose) }

  /** update_text */
  function UpdateText(s: AvatarState): AvatarState
  {
    if |s.currentText| > 0 then
      s.(currentText := s.currentText[1..])
    else
      s.(textTimer := s.textTimer.Stop(), textVisible := false, mouthTimer := s.mouthTimer.Stop(),
         mouthClose := true, speaking := false)
  }

  /** check_messages */
  function CheckMessages(s: AvatarState): AvatarState
  {
    if !s.speaking && |s.messageQueue| > 0 then
      SpeakNow(s.(messageQueue := s.messageQueue[1..]), s.messageQueue[0])
    else
      s
  }

  /** _speak */
  function SpeakNow(s: AvatarState, text: string): AvatarState
  {
    s.(speaking := true, currentText := text, textVisible := true,
       mouthTimer := s.mouthTimer.Start(MOUTH_PERIOD_MS),
       textTimer := s.textTimer.Start(TEXT_PERIOD_MS))
  }

  /** start, blink scheduling only; firstBlink is the value random.randint returned. */
  function Start(s: AvatarState, firstBlink: int): AvatarState
  {
    s.(blinkTimer := s.blinkTimer.Start(firstBlink))
  }

  /** speak */
  function Speak(s: AvatarState, text: string): AvatarState
  {
    s.(messageQueue := s.messageQueue + [text])
  }

  /** exclamation_on / exclamation_off */
  function SetExclamation(s: AvatarState, on: bool): AvatarState { s.(exclamationVisible := on) }

  /** pale_on / pale_off */
  function SetPale(s: AvatarState, on: bool): AvatarState { s.(paleVisible := on) }

  /** Each overlay setter changes only its own flag, and setting a flag twice is
      setting it once. */
  lemma OverlaySettersIdempotent(s: AvatarState, on: bool)
    ensures SetExclamation(s, on) == s.(exclamationVisible := on)
    ensures SetPale(s, on) == s.(paleVisible := on)
    ensures SetExclamation(SetExclamation(s, on), on) == SetExclamation(s, on)
    ensures SetPale(SetPale(s, on), on) == SetPale(s, on)
  {
  }

  /** The state after n firings of the text-scroll timer. */
  function Scroll(s: AvatarState, n: nat): AvatarState
    decreases n
  {
    if n == 0 then s else Scroll(UpdateText(s), n - 1)
  }

  /** While text remains, k scroll ticks drop exactly its first k characters and change
      nothing else: the speech act goes on. */
  lemma {:induction false} ScrollDropsPrefix(s: AvatarState, k: nat)
    requires k <= |s.currentText|
    ensures Scroll(s, k) == s.(currentText := s.currentText[k..])
    decreases k
  {
    if k > 0 {
      var u := UpdateText(s);
      assert u == s.(currentText := s.currentText[1..]);
      ScrollDropsPrefix(u, k - 1);
      assert u.currentText[k - 1..] == s.currentText[k..];
    }
  }

  /** One tick after the text is exhausted the speech act is over: both timers are
      stopped, the text is hidden, the mouth is closed, and nothing else has changed. */
  lemma SpeechActEnds(s: AvatarState)
    ensures Scroll(s, |s.currentText| + 1)
         == s.(currentText := "", textTimer := s.textTimer.Stop(), textVisible := false,
               mouthTimer := s.mouthTimer.Stop(), mouthClose := true, speaking := false)
  {
    var n := |s.currentText|;
    ScrollDropsPrefix(s, n);
    var e := s.(currentText := s.currentText[n..]);
    assert e.currentText == "";
    ScrollSplit(s, n, 1);
  }

  /** Scrolling m + n ticks is scrolling m ticks and then n more. */
  lemma {:induction false} ScrollSplit(s: AvatarState, m: nat, n: nat)
    ensures Scroll(s, m + n) == Scroll(Scroll(s, m), n)
    decreases m
  {
    if m > 0 {
      ScrollSplit(UpdateText(s), m - 1, n);
    }
  }

  /** A speech act of text t, started from an idle state that keeps Inv, is still
      speaking, showing t[k..], after each of the first |t| scroll ticks, and is idle
      again with Inv restored after exactly |t| + 1 ticks. */
  lemma SpeechActTakesLengthPlusOneTicks(s: AvatarState, t: string)
    requires Inv(s) && !s.speaking
    ensures var b := SpeakNow(s, t);
      && Inv(b)
      && (forall k: nat :: k <= |t| ==> Scroll(b, k).speaking && Scroll(b, k).currentText == t[k..])
      && !Scroll(b, |t| + 1).speaking
      && Scroll(b, |t| + 1).mouthClose
      && !Scroll(b, |t| + 1).textVisible
      && Inv(Scroll(b, |t| + 1))
  {
    var b := SpeakNow(s, t);
    forall k: nat | k <= |t|
      ensures Scroll(b, k).speaking && Scroll(b, k).currentText == t[k..]
    {
      ScrollDropsPrefix(b, k);
    }
    SpeechActEnds(b);
  }

  /** Polling the queue while a speech act is on changes nothing: at most one
      utterance is active at a time. */
  lemma CheckMessagesWhileSpeaking(s: AvatarState)
    requires s.speaking
    ensures CheckMessages(s) == s
  {
  }

  /** Queue order: with "a" and then "b" spoken into an idle avatar with an empty
      queue, the poll starts "a"; it does not start "b" during any of the |a| + 1
      ticks "a" takes to scroll off; and the first poll after that starts "b". */
  lemma SpokenInQueueOrder(s: AvatarState, a: string, b: string)
    requires Inv(s) && !s.speaking && s.messageQueue == []
    ensures var s1 := CheckMessages(Speak(Speak(s, a), b));
      && s1.speaking && s1.currentText == a && s1.messageQueue == [b]
      && (forall k: nat :: k <= |a| ==> CheckMessages(Scroll(s1, k)) == Scroll(s1, k))
      && var s2 := CheckMessages(Scroll(s1, |a| + 1));
         s2.speaking && s2.currentText == b && s2.messageQueue == []
  {
    var q := Speak(Speak(s, a), b);
    assert q.messageQueue == [a, b];
    var s1 := CheckMessages(q);
    assert s1 == SpeakNow(q.(messageQueue := [b]), a);
    forall k: nat | k <= |a|
      ensures CheckMessages(Scroll(s1, k)) == Scroll(s1, k)
    {
      ScrollDropsPrefix(s1, k);
    }
    SpeechActEnds(s1);
  }
}
