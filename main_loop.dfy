/**
 * The main loop of src/main.rs as a state machine: one call of `Frame` is
 * one pass through the body of `while window.is_open()`. The window, the
 * clock and the renderer are outside the model: the Escape state, the
 * pressed keys and the frame's duration arrive as arguments, and each call
 * of `render` is recorded as the model it was handed.
 */
module MainLoop {
  import opened App

  /** `splash_delay`. */
  const SplashDelay: int := 300

  /** `(window_height / window_width) * framebuffer_width`, truncated to an integer. */
  function FramebufferHeight(windowWidth: nat, windowHeight: nat, framebufferWidth: nat): (h: nat)
    requires windowWidth > 0
    ensures h * windowWidth <= windowHeight * framebufferWidth < (h + 1) * windowWidth
  {
    (windowHeight * framebufferWidth) / windowWidth
  }

  /** The 1080 x 720 window gets a 1000 x 666 framebuffer. */
  lemma MainFramebuffer()
    ensures FramebufferHeight(1080, 720, 1000) == 666
  {
    var h := FramebufferHeight(1080, 720, 1000);
    assert h * 1080 <= 720000 < (h + 1) * 1080;
  }

  /** `for msg in messages { data = update(data, msg) }`. */
  method ApplyMessages(data: Model, messages: seq<Message>, controls: CameraControls) returns (r: Model)
    ensures r == FoldUpdates(data, messages, controls)
  {
    r := data;
    var j := 0;
    while j < |messages|
      invariant 0 <= j <= |messages|
      invariant r == FoldUpdates(data, messages[..j], controls)
    {
      FoldUpdatesSnoc(data, messages[..j], messages[j], controls);
      assert messages[..j + 1] == messages[..j] + [messages[j]];
      r := Update(r, messages[j], controls);
      j := j + 1;
    }
    assert messages[..j] == messages;
  }

  class FrameLoop {
    var data: Model
    var splashTimer: int
    var modeCooldownTimer: int
    var lastRecordedFrames: seq<nat>
    var time: real
    /** The models handed to `render`, oldest first. */
    var rendered: seq<Model>
    const controls: CameraControls
    /** Every frame time recorded so far. */
    ghost var frameTimes: seq<nat>
    /** The number of passes through the loop body so far. */
    ghost var framesStarted: nat

    ghost predicate Valid()
      reads this
    {
      && modeCooldownTimer == 0
      && splashTimer == (if framesStarted <= SplashDelay + 1 then framesStarted else SplashDelay + 1)
      && lastRecordedFrames == LastN(frameTimes, FrameWindow)
      && ViewTracksCamera(data)
      && |data.renderEntities| == 1
      && |rendered| > 0 && rendered[|rendered| - 1] == data
    }

    /** The set-up before the loop: `init`, the first render, and the timers and window at zero. */
    constructor(controls: CameraControls)
      ensures Valid()
      ensures data == Init((1080, 720), (1000, 666))
      ensures rendered == [data]
      ensures splashTimer == 0 && modeCooldownTimer == 0
      ensures lastRecordedFrames == [] && time == 0.0
      ensures this.controls == controls
    {
      MainFramebuffer();
      var framebufferHeight := FramebufferHeight(1080, 720, 1000);
      data := Init((1080, 720), (1000, framebufferHeight));
      rendered := [data];
      splashTimer := 0;
      modeCooldownTimer := 0;
      lastRecordedFrames := [];
      time := 0.0;
      this.controls := controls;
      frameTimes := [];
      framesStarted := 0;
    }

    /**
     * One pass through the loop body: step the timers; stop on Escape;
     * otherwise fold the key messages and then `UpdateTime(time)` into the
     * model, render it, record the frame time and advance the clock.
     */
    method Frame(escapeDown: bool, keysPressed: seq<Key>, renderMillis: nat) returns (keepRunning: bool)
      requires Valid()
      modifies this
      ensures Valid()
      ensures keepRunning == !escapeDown
      ensures modeCooldownTimer == if old(modeCooldownTimer) - 1 > 0 then old(modeCooldownTimer) - 1 else 0
      ensures splashTimer == if old(splashTimer) + 1 < SplashDelay + 1 then old(splashTimer) + 1 else SplashDelay + 1
      ensures 0 <= splashTimer <= SplashDelay + 1 && 0 <= modeCooldownTimer
      ensures |lastRecordedFrames| <= FrameWindow
      ensures escapeDown ==>
        data == old(data) && rendered == old(rendered) && time == old(time) && lastRecordedFrames == old(lastRecordedFrames)
      ensures !escapeDown ==> data == FoldUpdates(old(data), KeysToMessages(keysPressed) + [UpdateTime(old(time))], controls)
      ensures !escapeDown ==> data.uniforms.time == old(time)
      ensures !escapeDown ==> rendered == old(rendered) + [data]
      ensures !escapeDown ==> lastRecordedFrames == RecordFrame(old(lastRecordedFrames), renderMillis)
      ensures !escapeDown ==> time == old(time) + renderMillis as real
    {
      StepTimers();
      if escapeDown {
        return false;
      }
      UpdateAndRender(keysPressed, renderMillis);
      return true;
    }

    /** `mode_cooldown_timer` counts down to 0 and `splash_timer` up to `splash_delay + 1`. */
    method StepTimers()
      requires Valid()
      modifies this`modeCooldownTimer, this`splashTimer, this`framesStarted
      ensures Valid()
      ensures modeCooldownTimer == if old(modeCooldownTimer) - 1 > 0 then old(modeCooldownTimer) - 1 else 0
      ensures splashTimer == if old(splashTimer) + 1 < SplashDelay + 1 then old(splashTimer) + 1 else SplashDelay + 1
    {
      modeCooldownTimer := if modeCooldownTimer - 1 > 0 then modeCooldownTimer - 1 else 0;
      splashTimer := if splashTimer + 1 < SplashDelay + 1 then splashTimer + 1 else SplashDelay + 1;
      framesStarted := framesStarted + 1;
    }

    /**
     * The rest of a pass that does not stop: fold the key messages and then
     * `UpdateTime(time)` into the model, render it, record the frame time
     * in the window and advance the clock.
     */
    method UpdateAndRender(keysPressed: seq<Key>, renderMillis: nat)
      requires Valid()
      modifies this`data, this`rendered, this`lastRecordedFrames, this`frameTimes, this`time
      ensures Valid()
      ensures data == FoldUpdates(old(data), KeysToMessages(keysPressed) + [UpdateTime(old(time))], controls)
      ensures data.uniforms.time == old(time)
      ensures rendered == old(rendered) + [data]
      ensures lastRecordedFrames == RecordFrame(old(lastRecordedFrames), renderMillis)
      ensures time == old(time) + renderMillis as real
    {
      UpdateModel(keysPressed);
      RecordFrameTime(renderMillis);
    }

    /** Fold this frame's messages into the model and hand the result to `render`. */
    method UpdateModel(keysPressed: seq<Key>)
      requires Valid()
      modifies this`data, this`rendered
      ensures Valid()
      ensures data == FoldUpdates(old(data), KeysToMessages(keysPressed) + [UpdateTime(time)], controls)
      ensures data.uniforms.time == time
      ensures rendered == old(rendered) + [data]
    {
      var messages := KeysToMessages(keysPressed) + [UpdateTime(time)];
      ghost var start := data;
      data := ApplyMessages(data, messages, controls);
      FoldKeepsFixedFields(start, messages, controls);
      FrameMessages(start, keysPressed, time, controls);
      rendered := rendered + [data];
    }

    /** Push the frame time into the window, dropping the oldest when it is full, and advance the clock. */
    method RecordFrameTime(renderMillis: nat)
      requires Valid()
      modifies this`lastRecordedFrames, this`frameTimes, this`time
      ensures Valid()
      ensures lastRecordedFrames == RecordFrame(old(lastRecordedFrames), renderMillis)
      ensures time == old(time) + renderMillis as real
    {
      RecordFrameKeepsLastN(frameTimes, renderMillis);
      lastRecordedFrames := RecordFrame(lastRecordedFrames, renderMillis);
      frameTimes := frameTimes + [renderMillis];
      time := time + renderMillis as real;
    }
  }
}
