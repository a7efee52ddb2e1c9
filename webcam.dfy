/** The selfie-capture component: a camera preview, a 3-2-1 countdown driven by a
    one-second interval, a capture 100 ms after the countdown ends, retake, an
    external reset, a mirror toggle and a camera-error screen.

    Timers are events: `Tick` is one run of an interval callback and `Fire` is the
    capture timeout going off. The counters `intervals` and `pendingCaptures` say how
    many of each are registered. The screenshot grab is a parameter, since it reads
    the camera. */
module Webcam {
  import opened Base

  /** The countdown value after one interval callback (the functional state update). */
  function CountdownAfterTick(prev: Option<int>): (next: Option<int>)
    ensures Expires(prev) ==> next.None?
    ensures !Expires(prev) ==> next == Some(prev.value - 1) && next.value >= 1
  {
    if prev.None? || prev.value <= 1 then None else Some(prev.value - 1)
  }

  /** The callback that sees this value stops its interval and schedules the capture. */
  predicate Expires(prev: Option<int>) {
    prev.None? || prev.value <= 1
  }

  /** The values a countdown starting at `n` shows, tick by tick, until it expires. */
  function Shown(n: int, ticks: nat): Option<int> {
    if ticks == 0 then Some(n) else CountdownAfterTick(Shown(n, ticks - 1))
  }

  /** A countdown from `n` shows n, n-1, ..., 1 and expires on the n-th tick. */
  lemma {:induction false} CountdownFrom(n: int, k: nat)
    requires n >= 1 && k < n
    ensures Shown(n, k) == Some(n - k)
    ensures !Expires(Shown(n, k)) <==> k < n - 1
  {
    if k > 0 {
      CountdownFrom(n, k - 1);
    }
  }

  /** Started at 3, the display runs 3, 2, 1 and then clears, capturing on the third tick. */
  lemma ThreeTwoOne()
    ensures Shown(3, 0) == Some(3) && Shown(3, 1) == Some(2) && Shown(3, 2) == Some(1)
    ensures Shown(3, 3).None? && Expires(Shown(3, 2))
    ensures forall k :: 0 <= k < 2 ==> !Expires(Shown(3, k))
  {
    CountdownFrom(3, 2);
    CountdownFrom(3, 1);
    CountdownFrom(3, 0);
  }

  /** What the component renders. */
  datatype Screen = RetryScreen | LiveScreen | CapturedScreen

  /** The message `handleUserMediaError` shows. */
  const CameraErrorMessage := "Não foi possível acessar a câmera. Verifique as permissões."

  class WebcamCapture {
    var imageSrc: Option<string>
    var isCaptured: bool
    var error: Option<string>
    var countdown: Option<int>
    var isFlipped: bool
    /** Countdown intervals still registered. */
    var intervals: nat
    /** Capture timeouts scheduled and not yet run. */
    var pendingCaptures: nat
    /** Every image handed to the parent's onCapture, in order. */
    var delivered: seq<string>

    /** A captured image is present exactly when the component says it is captured,
        and it is never empty; a running countdown shows 3, 2 or 1 and has an interval
        to move it on. */
    ghost predicate Valid()
      reads this
    {
      && (isCaptured <==> imageSrc.Some?)
      && (imageSrc.Some? ==> imageSrc.value != "")
      && (countdown.Some? ==> 1 <= countdown.value <= 3 && intervals > 0)
    }

    /** The error screen replaces everything else; otherwise the preview shows until a
        photo is held. The camera element is mounted on the live screen only. */
    function View(): (v: Screen)
      reads this
      ensures v == RetryScreen <==> Truthy(error)
      ensures v == LiveScreen <==> !Truthy(error) && !isCaptured
    {
      if Truthy(error) then RetryScreen
      else if !isCaptured then LiveScreen
      else CapturedScreen
    }

    constructor ()
      ensures Valid()
      ensures imageSrc.None? && !isCaptured && error.None? && countdown.None? && isFlipped
      ensures intervals == 0 && pendingCaptures == 0 && delivered == []
      ensures View() == LiveScreen
    {
      imageSrc, isCaptured, error, countdown := None, false, None, None;
      isFlipped := true;
      intervals, pendingCaptures := 0, 0;
      delivered := [];
    }

    /** Tap on the preview or the capture button, both on the live screen only.
        Ignored while a countdown runs or a photo is held; otherwise shows 3 and
        registers a one-second interval. */
    method StartCountdown()
      requires Valid() && View() == LiveScreen
      modifies this
      ensures Valid()
      ensures old(countdown).Some? || old(isCaptured) ==>
        countdown == old(countdown) && intervals == old(intervals)
      ensures !(old(countdown).Some? || old(isCaptured)) ==>
        countdown == Some(3) && intervals == old(intervals) + 1
      ensures imageSrc == old(imageSrc) && isCaptured == old(isCaptured) && error == old(error)
      ensures isFlipped == old(isFlipped) && pendingCaptures == old(pendingCaptures)
      ensures delivered == old(delivered)
    {
      if countdown.Some? || isCaptured {
        return;
      }
      countdown := Some(3);
      intervals := intervals + 1;
    }

    /** One interval callback: count down, or, when the value it sees has run out,
        stop that interval, clear the display and schedule the capture. */
    method Tick()
      requires Valid() && intervals > 0
      modifies this
      ensures Valid()
      ensures countdown == CountdownAfterTick(old(countdown))
      ensures Expires(old(countdown)) ==>
        intervals == old(intervals) - 1 && pendingCaptures == old(pendingCaptures) + 1
      ensures !Expires(old(countdown)) ==>
        intervals == old(intervals) && pendingCaptures == old(pendingCaptures)
      ensures imageSrc == old(imageSrc) && isCaptured == old(isCaptured) && error == old(error)
      ensures isFlipped == old(isFlipped) && delivered == old(delivered)
    {
      var prev := countdown;
      countdown := CountdownAfterTick(prev);
      if Expires(prev) {
        intervals := intervals - 1;
        pendingCaptures := pendingCaptures + 1;
      }
    }

    /** Whether `capture` takes a photo now: the camera element is mounted (live
        screen), its video has loaded, and the grab returned an image. */
    predicate Takes(videoReady: bool, screenshot: Option<string>)
      reads this
    {
      View() == LiveScreen && videoReady && Truthy(screenshot)
    }

    /** `capture`: keeps the screenshot and hands it to the parent when the camera
        element is mounted with its video loaded and the grab returned an image;
        otherwise changes nothing. */
    method Capture(videoReady: bool, screenshot: Option<string>)
      requires Valid()
      modifies this
      ensures Valid()
      ensures old(Takes(videoReady, screenshot)) ==>
        imageSrc == screenshot && isCaptured && delivered == old(delivered) + [screenshot.value]
      ensures !old(Takes(videoReady, screenshot)) ==>
        imageSrc == old(imageSrc) && isCaptured == old(isCaptured) && delivered == old(delivered)
      ensures error == old(error) && countdown == old(countdown) && isFlipped == old(isFlipped)
      ensures intervals == old(intervals) && pendingCaptures == old(pendingCaptures)
    {
      if Takes(videoReady, screenshot) {
        imageSrc := screenshot;
        isCaptured := true;
        delivered := delivered + [screenshot.value];
      }
    }

    /** The capture timeout: capture, then clear the countdown. */
    method Fire(videoReady: bool, screenshot: Option<string>)
      requires Valid() && pendingCaptures > 0
      modifies this
      ensures Valid()
      ensures old(Takes(videoReady, screenshot)) ==>
        imageSrc == screenshot && isCaptured && delivered == old(delivered) + [screenshot.value]
      ensures !old(Takes(videoReady, screenshot)) ==>
        imageSrc == old(imageSrc) && isCaptured == old(isCaptured) && delivered == old(delivered)
      ensures countdown.None? && pendingCaptures == old(pendingCaptures) - 1
      ensures error == old(error) && isFlipped == old(isFlipped) && intervals == old(intervals)
    {
      Capture(videoReady, screenshot);
      countdown := None;
      pendingCaptures := pendingCaptures - 1;
    }

    /** The retry button of the error screen and the retake button of the captured
        screen. Clears the photo, the error and the countdown; the mirror setting
        stays. Registered timers are not cancelled. */
    method Retake()
      requires Valid() && View() != LiveScreen
      modifies this
      ensures Valid()
      ensures imageSrc.None? && !isCaptured && error.None? && countdown.None?
      ensures isFlipped == old(isFlipped) && delivered == old(delivered)
      ensures intervals == old(intervals) && pendingCaptures == old(pendingCaptures)
      ensures View() == LiveScreen
    {
      imageSrc, isCaptured, error, countdown := None, false, None, None;
    }

    /** The effect run when the parent's reset counter changes: a positive value
        clears the same four fields as a retake; 0 or no value changes nothing. */
    method ResetTriggerChanged(resetTrigger: Option<int>)
      requires Valid()
      modifies this
      ensures Valid()
      ensures resetTrigger.Some? && resetTrigger.value > 0 ==>
        imageSrc.None? && !isCaptured && error.None? && countdown.None?
      ensures !(resetTrigger.Some? && resetTrigger.value > 0) ==>
        imageSrc == old(imageSrc) && isCaptured == old(isCaptured) &&
        error == old(error) && countdown == old(countdown)
      ensures isFlipped == old(isFlipped) && delivered == old(delivered)
      ensures intervals == old(intervals) && pendingCaptures == old(pendingCaptures)
    {
      if resetTrigger.Some? && resetTrigger.value > 0 {
        imageSrc, isCaptured, error, countdown := None, false, None, None;
      }
    }

    /** The flip button, on the live and the captured screen. */
    method ToggleFlip()
      requires Valid() && View() != RetryScreen
      modifies this
      ensures Valid()
      ensures isFlipped == !old(isFlipped)
      ensures imageSrc == old(imageSrc) && isCaptured == old(isCaptured) && error == old(error)
      ensures countdown == old(countdown) && delivered == old(delivered)
      ensures intervals == old(intervals) && pendingCaptures == old(pendingCaptures)
    {
      isFlipped := !isFlipped;
    }

    /** The mounted camera element reports that the camera could not be opened:
        show the retry screen. */
    method HandleUserMediaError()
      requires Valid() && View() == LiveScreen
      modifies this
      ensures Valid()
      ensures error == Some(CameraErrorMessage) && View() == RetryScreen
      ensures imageSrc == old(imageSrc) && isCaptured == old(isCaptured)
      ensures countdown == old(countdown) && isFlipped == old(isFlipped) && delivered == old(delivered)
      ensures intervals == old(intervals) && pendingCaptures == old(pendingCaptures)
    {
      error := Some(CameraErrorMessage);
    }

    /** The confirm button of the captured screen hands the held image to the parent again. */
    method Confirm()
      requires Valid() && View() == CapturedScreen
      modifies this
      ensures Valid()
      ensures imageSrc == old(imageSrc) && isCaptured == old(isCaptured) && error == old(error)
      ensures delivered == old(delivered) + [imageSrc.value]
      ensures countdown == old(countdown) && isFlipped == old(isFlipped)
      ensures intervals == old(intervals) && pendingCaptures == old(pendingCaptures)
    {
      delivered := delivered + [imageSrc.value];
    }
  }

  /** A fresh component, tapped once, left to count down and capture `shot`: the
      display goes 3, 2, 1, clears, and the shot is handed over exactly once. */
  method CountdownToCapture(shot: string) returns (w: WebcamCapture)
    requires shot != ""
    ensures w.Valid() && w.View() == CapturedScreen
    ensures w.imageSrc == Some(shot) && w.delivered == [shot] && w.countdown.None?
    ensures w.intervals == 0 && w.pendingCaptures == 0
  {
    w := new WebcamCapture();
    w.StartCountdown();
    assert w.countdown == Some(3);
    w.Tick();
    assert w.countdown == Some(2);
    w.Tick();
    assert w.countdown == Some(1);
    w.StartCountdown();
    assert w.countdown == Some(1) && w.intervals == 1;
    w.Tick();
    assert w.countdown.None? && w.pendingCaptures == 1;
    w.Fire(true, Some(shot));
  }

  /** Flipping twice restores the mirror setting and touches nothing else. */
  method FlipTwice(w: WebcamCapture)
    requires w.Valid() && w.View() != RetryScreen
    modifies w
    ensures w.Valid() && w.isFlipped == old(w.isFlipped)
    ensures w.imageSrc == old(w.imageSrc) && w.isCaptured == old(w.isCaptured) && w.error == old(w.error)
    ensures w.countdown == old(w.countdown) && w.delivered == old(w.delivered)
    ensures w.intervals == old(w.intervals) && w.pendingCaptures == old(w.pendingCaptures)
  {
    w.ToggleFlip();
    w.ToggleFlip();
  }

  /** On the retry screen, retrying clears the error and returns to the live preview. */
  method RetryAfterCameraError(w: WebcamCapture)
    requires w.Valid() && w.View() == LiveScreen
    modifies w
    ensures w.Valid() && w.error.None? && w.View() == LiveScreen
  {
    w.HandleUserMediaError();
    assert w.View() == RetryScreen;
    w.Retake();
  }

  /** Retrying from the error screen does not stop a countdown already running: its
      interval still expires and the capture still happens, handing a photo over. */
  method CountdownOutlivesRetry(shot: string) returns (w: WebcamCapture)
    requires shot != ""
    ensures w.Valid() && w.error.None? && w.View() == CapturedScreen
    ensures w.delivered == [shot] && w.intervals == 0 && w.pendingCaptures == 0
  {
    w := new WebcamCapture();
    w.StartCountdown();
    w.HandleUserMediaError();
    w.Retake();
    assert w.countdown.None? && w.intervals == 1;
    w.Tick();
    assert w.pendingCaptures == 1;
    w.Fire(true, Some(shot));
  }

  /** Two countdowns whose intervals both run out schedule two captures, yet only the
      first takes a photo: it unmounts the camera element, so the second finds no
      video and does nothing. */
  method StaleTimeoutsDeliverOnce(shot1: string, shot2: string) returns (w: WebcamCapture)
    requires shot1 != "" && shot2 != ""
    ensures w.Valid() && w.View() == CapturedScreen
    ensures w.imageSrc == Some(shot1) && w.delivered == [shot1]
    ensures w.intervals == 0 && w.pendingCaptures == 0
  {
    w := new WebcamCapture();
    w.StartCountdown();
    w.HandleUserMediaError();
    w.Retake();
    w.StartCountdown();
    assert w.countdown == Some(3) && w.intervals == 2;
    w.Tick();
    w.Tick();
    w.Tick();
    assert w.countdown.None? && w.intervals == 1 && w.pendingCaptures == 1;
    w.Tick();
    assert w.intervals == 0 && w.pendingCaptures == 2;
    w.Fire(true, Some(shot1));
    assert w.View() == CapturedScreen;
    w.Fire(true, Some(shot2));
  }
}
