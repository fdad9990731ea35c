/** The avatar widget: its state fields, updated in place by its timer callbacks and
    public operations. Each method is specified by the matching transition of
    AvatarMachine, and each keeps AvatarMachine.Inv. */
module Avatar {
  import opened AvatarMachine

  class M5StackAvatar {
    var eyesClosed: bool
    var mouthClose: bool
    var exclamationVisible: bool
    var paleVisible: bool
    var currentText: string
    var textVisible: bool
    var speaking: bool
    var messageQueue: seq<string>
    var blinkTimer: Timer
    var blinkCloseTimer: Timer
    var mouthTimer: Timer
    var textTimer: Timer
    var messageCheckTimer: Timer

    /** The object's fields as one value. */
    function State(): AvatarState
      reads this
    {
      AvatarState(eyesClosed, mouthClose, exclamationVisible, paleVisible, currentText,
                  textVisible, speaking, messageQueue,
                  blinkTimer, blinkCloseTimer, mouthTimer, textTimer, messageCheckTimer)
    }

    ghost predicate Valid()
      reads this
    {
      Inv(State())
    }

    constructor ()
      ensures State() == Init()
      ensures Valid()
    {
      mouthClose := true;
      eyesClosed := false;
      exclamationVisible := false;
      paleVisible := false;
      currentText := "";
      textVisible := false;
      speaking := false;
      messageQueue := [];
      blinkTimer := NEW_TIMER;
      blinkCloseTimer := NEW_TIMER;
      mouthTimer := NEW_TIMER;
      textTimer := NEW_TIMER;
      messageCheckTimer := NEW_TIMER.Start(MESSAGE_CHECK_MS);
    }

    /** Closes open eyes and arms the 500 ms reopen; closed eyes stay closed; in both
        cases the blink timer is re-armed with a random delay in [2000, 6000]. */
    method ToggleBlink()
      modifies this
      ensures IsBlinkDelay(blinkTimer.interval) && blinkTimer.active
      ensures !old(eyesClosed) ==> eyesClosed && blinkCloseTimer == Timer(true, BLINK_TERM_MS)
      ensures old(eyesClosed) ==> eyesClosed && blinkCloseTimer == old(blinkCloseTimer)
      ensures State() == AvatarMachine.ToggleBlink(old(State()), blinkTimer.interval)
      ensures old(Valid()) ==> Valid()
    {
      if !eyesClosed {
        eyesClosed := true;
        blinkCloseTimer := blinkCloseTimer.Start(BLINK_TERM_MS);
      }
      var nextBlink :| BLINK_MIN_MS <= nextBlink <= BLINK_MAX_MS;
      blinkTimer := blinkTimer.Start(nextBlink);
    }

    method OpenEyes()
      modifies this
      ensures !eyesClosed
      ensures State() == AvatarMachine.OpenEyes(old(State()))
      ensures old(Valid()) ==> Valid()
    {
      eyesClosed := false;
    }

    /** Flips the mouth. Qt calls it only while the mouth timer runs, and then it keeps
        the invariant. */
    method ToggleMouth()
      modifies this
      ensures mouthClose == !old(mouthClose)
      ensures State() == AvatarMachine.ToggleMouth(old(State()))
      ensures old(Valid()) && old(mouthTimer.active) ==> Valid()
    {
      mouthClose := !mouthClose;
    }

    /** Drops the first character of the text; once the text is empty, ends the speech
        act instead. */
    method UpdateText()
      modifies this
      ensures |old(currentText)| > 0 ==> currentText == old(currentText)[1..] && speaking == old(speaking)
      ensures |old(currentText)| == 0 ==>
        && !textTimer.active && !mouthTimer.active
        && !textVisible && mouthClose && !speaking
      ensures State() == AvatarMachine.UpdateText(old(State()))
      ensures old(Valid()) ==> Valid()
    {
      if |currentText| > 0 {
        currentText := currentText[1..];
      } else {
        textTimer := textTimer.Stop();
        textVisible := false;
        mouthTimer := mouthTimer.Stop();
        mouthClose := true;
        speaking := false;
      }
    }

    /** Dequeues the head of the queue and starts speaking it, only when idle and the
        queue is non-empty; otherwise changes nothing. */
    method CheckMessages()
      modifies this
      ensures !old(speaking) && |old(messageQueue)| > 0 ==>
        && messageQueue == old(messageQueue)[1..]
        && speaking && currentText == old(messageQueue)[0]
      ensures old(speaking) || old(messageQueue) == [] ==> State() == old(State())
      ensures State() == AvatarMachine.CheckMessages(old(State()))
      ensures old(Valid()) ==> Valid()
    {
      if !speaking && |messageQueue| > 0 {
        var text := messageQueue[0];
        messageQueue := messageQueue[1..];
        SpeakNow(text);
      }
    }

    /** _speak: starts a speech act of text, with the mouth and the text timers both at
        200 ms. */
    method SpeakNow(text: string)
      modifies this
      ensures speaking && currentText == text && textVisible
      ensures mouthTimer == Timer(true, MOUTH_PERIOD_MS) && textTimer == Timer(true, TEXT_PERIOD_MS)
      ensures State() == AvatarMachine.SpeakNow(old(State()), text)
      ensures old(Valid()) ==> Valid()
    {
      speaking := true;
      currentText := text;
      textVisible := true;
      mouthTimer := mouthTimer.Start(MOUTH_PERIOD_MS);
      textTimer := textTimer.Start(TEXT_PERIOD_MS);
    }

    /** start: schedules the first blink after a random delay in [2000, 6000]. */
    method Start()
      modifies this
      ensures IsBlinkDelay(blinkTimer.interval) && blinkTimer.active
      ensures State() == AvatarMachine.Start(old(State()), blinkTimer.interval)
      ensures old(Valid()) ==> Valid()
    {
      var firstBlink :| BLINK_MIN_MS <= firstBlink <= BLINK_MAX_MS;
      blinkTimer := blinkTimer.Start(firstBlink);
    }

    /** Appends text to the end of the queue and changes nothing else. */
    method Speak(text: string)
      modifies this
      ensures messageQueue == old(messageQueue) + [text]
      ensures State() == old(State()).(messageQueue := messageQueue)
      ensures State() == AvatarMachine.Speak(old(State()), text)
      ensures old(Valid()) ==> Valid()
    {
      messageQueue := messageQueue + [text];
    }

    method ExclamationOn()
      modifies this
      ensures State() == old(State()).(exclamationVisible := true)
      ensures State() == AvatarMachine.SetExclamation(old(State()), true)
      ensures old(Valid()) ==> Valid()
    {
      exclamationVisible := true;
    }

    method ExclamationOff()
      modifies this
      ensures State() == old(State()).(exclamationVisible := false)
      ensures State() == AvatarMachine.SetExclamation(old(State()), false)
      ensures old(Valid()) ==> Valid()
    {
      exclamationVisible := false;
    }

    method PaleOn()
      modifies this
      ensures State() == old(State()).(paleVisible := true)
      ensures State() == AvatarMachine.SetPale(old(State()), true)
      ensures old(Valid()) ==> Valid()
    {
      paleVisible := true;
    }

    method PaleOff()
      modifies this
      ensures State() == old(State()).(paleVisible := false)
      ensures State() == AvatarMachine.SetPale(old(State()), false)
      ensures old(Valid()) ==> Valid()
    {
      paleVisible := false;
    }
  }
}
