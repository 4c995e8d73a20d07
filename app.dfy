/**
 * The application state of src/main.rs: the `Model` record, the `Message`
 * reducer `update`, the key-to-message mapping, `init`, and the bounded
 * window of recent frame times. The camera's `orbit` and `zoom` are float
 * geometry outside the model and arrive as function parameters.
 */
module App {
  import opened Linear
  import opened Outcomes

  /** `ZOOM_SPEED`. */
  const ZoomSpeed: real := 1.0

  /** `ROTATION_SPEED`, that is `PI / 20.0` evaluated in `f32`. */
  const RotationSpeed: real := 0.15707964

  /** The planet presets of src/planets.rs; an entity is the preset that built it. */
  datatype Planet = Disco | Ocean | GasGiant | Face | Snow | Sun | GreenPlanet

  datatype Entity = Preset(planet: Planet)

  datatype Camera = Camera(eye: Vec3, center: Vec3, up: Vec3)

  /** `Camera::orbit` and `Camera::zoom`, as pure functions of the camera. */
  datatype CameraControls = CameraControls(orbit: (Camera, real, real) -> Camera, zoom: (Camera, real) -> Camera)

  /** The `Uniforms` record that main.rs builds. */
  datatype Uniforms = Uniforms(viewMatrix: Mat4, projectionMatrix: Mat4, viewportMatrix: Mat4, time: real)

  datatype Model = Model(
    entities: seq<Entity>,
    renderEntities: seq<Entity>,
    uniforms: Uniforms,
    rotation: Vec3,
    translation: Vec3,
    scale: real,
    camera: Camera)

  datatype Message =
    | RotateCamera(yaw: real, pitch: real)
    | ZoomCamera(delta: real)
    | UpdateTime(time: real)
    | ChangePlanet(entity: Entity)

  /** The keys main.rs reacts to; `Digit(n)` is `Key::Key0` to `Key::Key9`. */
  datatype Key = Left | Right | Up | Down | W | S | Escape | Digit(n: nat) | OtherKey(code: nat)

  /** The view matrix is the look-at matrix of the current camera. */
  predicate ViewTracksCamera(m: Model) {
    m.uniforms.viewMatrix == LookAt(m.camera.eye, m.camera.center, m.camera.up)
  }

  /** The planet that number keys 1 to 7 select, in key order. */
  const PlanetOrder: seq<Planet> := [Disco, Ocean, GasGiant, Face, Snow, Sun, GreenPlanet]

  /** The digit key that selects planet `p`. */
  function PlanetKey(p: Planet): (n: nat)
    ensures 1 <= n <= |PlanetOrder| && PlanetOrder[n - 1] == p
  {
    match p
    case Disco => 1
    case Ocean => 2
    case GasGiant => 3
    case Face => 4
    case Snow => 5
    case Sun => 6
    case GreenPlanet => 7
  }

  /** Whether the `filter_map` closure in the main loop yields a message for `k`. */
  predicate IsControlKey(k: Key) {
    k.Left? || k.Right? || k.Up? || k.Down? || k.W? || k.S? || (k.Digit? && 1 <= k.n <= 7)
  }

  /** The `filter_map` closure of the main loop: one key to at most one message. */
  function KeyMessage(k: Key): (r: Option<Message>)
    ensures r.Some? <==> IsControlKey(k)
    ensures k == Left ==> r == Some(RotateCamera(RotationSpeed, 0.0))
    ensures k == Right ==> r == Some(RotateCamera(-RotationSpeed, 0.0))
    ensures k == Up ==> r == Some(RotateCamera(0.0, -RotationSpeed))
    ensures k == Down ==> r == Some(RotateCamera(0.0, RotationSpeed))
    ensures k == W ==> r == Some(ZoomCamera(ZoomSpeed))
    ensures k == S ==> r == Some(ZoomCamera(-ZoomSpeed))
    ensures r.Some? && r.value.RotateCamera? ==>
      (r.value.yaw == 0.0 && (r.value.pitch == RotationSpeed || r.value.pitch == -RotationSpeed)) ||
      (r.value.pitch == 0.0 && (r.value.yaw == RotationSpeed || r.value.yaw == -RotationSpeed))
    ensures r.Some? && r.value.ZoomCamera? ==> r.value.delta == ZoomSpeed || r.value.delta == -ZoomSpeed
    ensures r.Some? ==> !r.value.UpdateTime?
    ensures r.Some? && r.value.ChangePlanet? <==> k.Digit? && 1 <= k.n <= 7
    ensures r.Some? && r.value.ChangePlanet? ==> r.value.entity == Preset(PlanetOrder[k.n - 1])
  {
    match k
    case Left => Some(RotateCamera(RotationSpeed, 0.0))
    case Right => Some(RotateCamera(-RotationSpeed, 0.0))
    case Up => Some(RotateCamera(0.0, -RotationSpeed))
    case Down => Some(RotateCamera(0.0, RotationSpeed))
    case W => Some(ZoomCamera(ZoomSpeed))
    case S => Some(ZoomCamera(-ZoomSpeed))
    case Digit(n) =>
      if n == 1 then Some(ChangePlanet(Preset(Disco)))
      else if n == 2 then Some(ChangePlanet(Preset(Ocean)))
      else if n == 3 then Some(ChangePlanet(Preset(GasGiant)))
      else if n == 4 then Some(ChangePlanet(Preset(Face)))
      else if n == 5 then Some(ChangePlanet(Preset(Snow)))
      else if n == 6 then Some(ChangePlanet(Preset(Sun)))
      else if n == 7 then Some(ChangePlanet(Preset(GreenPlanet)))
      else None
    case Escape => None
    case OtherKey(_) => None
  }

  /** Opposite keys give opposite camera moves. */
  lemma OppositeKeys()
    ensures KeyMessage(Left).value.yaw == -KeyMessage(Right).value.yaw
    ensures KeyMessage(Up).value.pitch == -KeyMessage(Down).value.pitch
    ensures KeyMessage(W).value.delta == -KeyMessage(S).value.delta
  {
  }

  /** Every planet is selected by exactly one number key. */
  lemma EveryPlanetHasOneKey(p: Planet)
    ensures KeyMessage(Digit(PlanetKey(p))) == Some(ChangePlanet(Preset(p)))
    ensures forall n: nat :: KeyMessage(Digit(n)) == Some(ChangePlanet(Preset(p))) ==> n == PlanetKey(p)
  {
  }

  /** `filter_map` over the pressed keys, keeping their order. */
  function KeysToMessages(keys: seq<Key>): (msgs: seq<Message>)
    ensures |msgs| <= |keys|
    ensures (forall i :: 0 <= i < |keys| ==> IsControlKey(keys[i])) ==> |msgs| == |keys|
    ensures (forall i :: 0 <= i < |keys| ==> !IsControlKey(keys[i])) ==> msgs == []
    ensures forall j :: 0 <= j < |msgs| ==> !msgs[j].UpdateTime?
  {
    if keys == [] then []
    else
      var k := keys[|keys| - 1];
      KeysToMessages(keys[..|keys| - 1]) + (match KeyMessage(k) case Some(m) => [m] case None => [])
  }

  /** The messages of two key lists in a row are the messages of each, in order. */
  lemma {:induction false} KeysToMessagesAppend(a: seq<Key>, b: seq<Key>)
    ensures KeysToMessages(a + b) == KeysToMessages(a) + KeysToMessages(b)
    decreases |b|
  {
    if b == [] {
      assert a + b == a;
    } else {
      var b' := b[..|b| - 1];
      assert (a + b)[..|a + b| - 1] == a + b';
      KeysToMessagesAppend(a, b');
    }
  }

  /** A single key yields its own message when it is a control key, and nothing otherwise. */
  lemma KeysToMessagesSingle(k: Key)
    ensures KeysToMessages([k]) == if IsControlKey(k) then [KeyMessage(k).value] else []
  {
    assert [k][..0] == [];
  }

  /** Every message comes from a pressed key. */
  lemma {:induction false} KeysToMessagesFromKeys(keys: seq<Key>)
    ensures forall j :: 0 <= j < |KeysToMessages(keys)| ==>
      exists i :: 0 <= i < |keys| && KeyMessage(keys[i]) == Some(KeysToMessages(keys)[j])
  {
    if keys == [] {
      assert KeysToMessages(keys) == [];
    } else {
      var init, k := keys[..|keys| - 1], keys[|keys| - 1];
      KeysToMessagesFromKeys(init);
      var msgs, prev := KeysToMessages(keys), KeysToMessages(init);
      if KeyMessage(k).Some? {
        assert msgs == prev + [KeyMessage(k).value];
      } else {
        assert msgs == prev;
      }
      forall j | 0 <= j < |msgs|
        ensures exists i :: 0 <= i < |keys| && KeyMessage(keys[i]) == Some(msgs[j])
      {
        if j < |prev| {
          var i :| 0 <= i < |init| && KeyMessage(init[i]) == Some(prev[j]);
          assert keys[i] == init[i];
        } else {
          assert KeyMessage(keys[|keys| - 1]) == Some(msgs[j]);
        }
      }
    }
  }

  /** Every pressed control key contributes its message. */
  lemma {:induction false} ControlKeysGiveMessages(keys: seq<Key>)
    ensures forall i :: 0 <= i < |keys| && IsControlKey(keys[i]) ==> KeyMessage(keys[i]).value in KeysToMessages(keys)
  {
    if keys != [] {
      var init, k := keys[..|keys| - 1], keys[|keys| - 1];
      ControlKeysGiveMessages(init);
      var msgs, prev := KeysToMessages(keys), KeysToMessages(init);
      if KeyMessage(k).Some? {
        assert msgs == prev + [KeyMessage(k).value];
      } else {
        assert msgs == prev;
      }
      forall i | 0 <= i < |keys| && IsControlKey(keys[i])
        ensures KeyMessage(keys[i]).value in msgs
      {
        if i < |init| {
          assert keys[i] == init[i];
          assert KeyMessage(init[i]).value in prev;
        }
      }
    }
  }

  /** The planet of the last number key 1 to 7 among `keys`, as a singleton, or `initial` when there is none. */
  function LastPlanetKey(keys: seq<Key>, initial: seq<Entity>): seq<Entity> {
    if keys == [] then initial
    else
      var k := keys[|keys| - 1];
      if k.Digit? && 1 <= k.n <= 7 then [Preset(PlanetOrder[k.n - 1])]
      else LastPlanetKey(keys[..|keys| - 1], initial)
  }

  /** The last `ChangePlanet` among the key messages is the one of the last number key pressed. */
  lemma {:induction false} LastSelectionOfKeys(keys: seq<Key>, initial: seq<Entity>)
    ensures LastSelection(KeysToMessages(keys), initial) == LastPlanetKey(keys, initial)
  {
    if keys != [] {
      var init, k := keys[..|keys| - 1], keys[|keys| - 1];
      LastSelectionOfKeys(init, initial);
      var prev := KeysToMessages(init);
      if KeyMessage(k).Some? {
        var msgs := prev + [KeyMessage(k).value];
        assert KeysToMessages(keys) == msgs;
        assert msgs[..|msgs| - 1] == prev;
      } else {
        assert KeysToMessages(keys) == prev;
      }
    }
  }

  /** The camera after one message. */
  function CameraAfter(camera: Camera, msg: Message, controls: CameraControls): Camera {
    match msg
    case RotateCamera(yaw, pitch) => controls.orbit(camera, yaw, pitch)
    case ZoomCamera(delta) => controls.zoom(camera, delta)
    case _ => camera
  }

  /**
   * `update`: the camera messages move the camera and rebuild the view
   * matrix from it, `UpdateTime` sets the time uniform, `ChangePlanet`
   * replaces the rendered entities by the new one. Nothing else changes.
   */
  function Update(data: Model, msg: Message, controls: CameraControls): (r: Model)
    ensures r.entities == data.entities
    ensures r.rotation == data.rotation && r.translation == data.translation && r.scale == data.scale
    ensures r.uniforms.projectionMatrix == data.uniforms.projectionMatrix
    ensures r.uniforms.viewportMatrix == data.uniforms.viewportMatrix
    ensures r.uniforms.time == if msg.UpdateTime? then msg.time else data.uniforms.time
    ensures r.renderEntities == if msg.ChangePlanet? then [msg.entity] else data.renderEntities
    ensures r.camera == CameraAfter(data.camera, msg, controls)
    ensures (msg.RotateCamera? || msg.ZoomCamera?) ==> ViewTracksCamera(r)
    ensures !(msg.RotateCamera? || msg.ZoomCamera?) ==> r.camera == data.camera && r.uniforms.viewMatrix == data.uniforms.viewMatrix
  {
    match msg
    case RotateCamera(yaw, pitch) =>
      var camera := controls.orbit(data.camera, yaw, pitch);
      data.(camera := camera, uniforms := data.uniforms.(viewMatrix := LookAt(camera.eye, camera.center, camera.up)))
    case ZoomCamera(delta) =>
      var camera := controls.zoom(data.camera, delta);
      data.(camera := camera, uniforms := data.uniforms.(viewMatrix := LookAt(camera.eye, camera.center, camera.up)))
    case UpdateTime(time) =>
      data.(uniforms := data.uniforms.(time := time))
    case ChangePlanet(entity) =>
      data.(renderEntities := [entity])
  }

  /** `for msg in messages { data = update(data, msg) }`. */
  function FoldUpdates(data: Model, msgs: seq<Message>, controls: CameraControls): (r: Model)
    ensures r.entities == data.entities
    ensures r.rotation == data.rotation && r.translation == data.translation && r.scale == data.scale
  {
    if msgs == [] then data
    else Update(FoldUpdates(data, msgs[..|msgs| - 1], controls), msgs[|msgs| - 1], controls)
  }

  lemma FoldUpdatesSnoc(data: Model, msgs: seq<Message>, msg: Message, controls: CameraControls)
    ensures FoldUpdates(data, msgs + [msg], controls) == Update(FoldUpdates(data, msgs, controls), msg, controls)
  {
    assert (msgs + [msg])[..|msgs|] == msgs;
  }

  /** The camera after a list of messages, looking only at the camera messages. */
  function FoldCamera(camera: Camera, msgs: seq<Message>, controls: CameraControls): Camera {
    if msgs == [] then camera
    else CameraAfter(FoldCamera(camera, msgs[..|msgs| - 1], controls), msgs[|msgs| - 1], controls)
  }

  /** The time set by the last `UpdateTime`, or `initial` when there is none. */
  function LastTime(msgs: seq<Message>, initial: real): real {
    if msgs == [] then initial
    else if msgs[|msgs| - 1].UpdateTime? then msgs[|msgs| - 1].time
    else LastTime(msgs[..|msgs| - 1], initial)
  }

  /** The singleton of the last `ChangePlanet` entity, or `initial` when there is none. */
  function LastSelection(msgs: seq<Message>, initial: seq<Entity>): seq<Entity> {
    if msgs == [] then initial
    else if msgs[|msgs| - 1].ChangePlanet? then [msgs[|msgs| - 1].entity]
    else LastSelection(msgs[..|msgs| - 1], initial)
  }

  /**
   * Folding messages keeps the scene's fixed fields and the projection and
   * viewport, keeps the view in step with the camera, and leaves exactly one
   * rendered entity when it started with one.
   */
  lemma {:induction false} FoldKeepsFixedFields(data: Model, msgs: seq<Message>, controls: CameraControls)
    ensures FoldUpdates(data, msgs, controls).entities == data.entities
    ensures FoldUpdates(data, msgs, controls).rotation == data.rotation
    ensures FoldUpdates(data, msgs, controls).translation == data.translation
    ensures FoldUpdates(data, msgs, controls).scale == data.scale
    ensures FoldUpdates(data, msgs, controls).uniforms.projectionMatrix == data.uniforms.projectionMatrix
    ensures FoldUpdates(data, msgs, controls).uniforms.viewportMatrix == data.uniforms.viewportMatrix
    ensures ViewTracksCamera(data) ==> ViewTracksCamera(FoldUpdates(data, msgs, controls))
    ensures |data.renderEntities| == 1 ==> |FoldUpdates(data, msgs, controls).renderEntities| == 1
  {
    if msgs != [] {
      FoldKeepsFixedFields(data, msgs[..|msgs| - 1], controls);
    }
  }

  /**
   * After a list of messages the camera depends on the camera messages
   * alone, the time is the last `UpdateTime`, and the rendered entities
   * are the last `ChangePlanet` selection.
   */
  lemma {:induction false} FoldMatchesReference(data: Model, msgs: seq<Message>, controls: CameraControls)
    ensures FoldUpdates(data, msgs, controls).camera == FoldCamera(data.camera, msgs, controls)
    ensures FoldUpdates(data, msgs, controls).uniforms.time == LastTime(msgs, data.uniforms.time)
    ensures FoldUpdates(data, msgs, controls).renderEntities == LastSelection(msgs, data.renderEntities)
  {
    if msgs != [] {
      FoldMatchesReference(data, msgs[..|msgs| - 1], controls);
    }
  }

  /** Key messages never set the time. */
  lemma {:induction false} KeysKeepTime(keys: seq<Key>, t: real)
    ensures LastTime(KeysToMessages(keys), t) == t
  {
    var msgs := KeysToMessages(keys);
    LastTimeWithoutUpdates(msgs, t);
  }

  lemma {:induction false} LastTimeWithoutUpdates(msgs: seq<Message>, t: real)
    requires forall j :: 0 <= j < |msgs| ==> !msgs[j].UpdateTime?
    ensures LastTime(msgs, t) == t
  {
    if msgs != [] {
      LastTimeWithoutUpdates(msgs[..|msgs| - 1], t);
    }
  }

  /**
   * One frame's messages: whatever keys were pressed, the time uniform ends
   * at the frame's `UpdateTime`, and the rendered entities are those of the
   * last number key pressed, if any.
   */
  lemma FrameMessages(data: Model, keys: seq<Key>, t: real, controls: CameraControls)
    ensures FoldUpdates(data, KeysToMessages(keys) + [UpdateTime(t)], controls).uniforms.time == t
    ensures FoldUpdates(data, KeysToMessages(keys) + [UpdateTime(t)], controls).renderEntities ==
      LastPlanetKey(keys, data.renderEntities)
  {
    var msgs := KeysToMessages(keys);
    FoldUpdatesSnoc(data, msgs, UpdateTime(t), controls);
    FoldMatchesReference(data, msgs, controls);
    LastSelectionOfKeys(keys, data.renderEntities);
  }

  /** The camera `init` places: at z = 10, looking at the origin, y up. */
  const StartCamera: Camera := Camera(Vec3(0.0, 0.0, 10.0), Zero3, UnitY)

  /** `init` as written: it reads the framebuffer dimensions as (height, width). */
  function InitAsWritten(windowDimensions: (nat, nat), framebufferDimensions: (nat, nat)): (m: Model)
    ensures m.uniforms.viewportMatrix ==
      ViewportMap(framebufferDimensions.1 as real, framebufferDimensions.0 as real)
  {
    var (framebufferHeight, framebufferWidth) := framebufferDimensions;
    var (windowWidth, windowHeight) := windowDimensions;
    Model([], [Preset(GreenPlanet)],
      Uniforms(LookAt(StartCamera.eye, StartCamera.center, StartCamera.up),
               Perspective(windowWidth as real, windowHeight as real),
               ViewportMap(framebufferWidth as real, framebufferHeight as real),
               0.0),
      Zero3, Zero3, 1.0, StartCamera)
  }

  /** `init` with the framebuffer dimensions read as (width, height), the order main passes them in. */
  function Init(windowDimensions: (nat, nat), framebufferDimensions: (nat, nat)): (m: Model)
    ensures m.entities == [] && m.renderEntities == [Preset(GreenPlanet)]
    ensures m.uniforms.time == 0.0
    ensures m.camera == StartCamera && ViewTracksCamera(m)
    ensures m.uniforms.projectionMatrix == Perspective(windowDimensions.0 as real, windowDimensions.1 as real)
    ensures m.uniforms.viewportMatrix ==
      ViewportMap(framebufferDimensions.0 as real, framebufferDimensions.1 as real)
    ensures m.rotation == Zero3 && m.translation == Zero3 && m.scale == 1.0
  {
    var (framebufferWidth, framebufferHeight) := framebufferDimensions;
    var (windowWidth, windowHeight) := windowDimensions;
    Model([], [Preset(GreenPlanet)],
      Uniforms(LookAt(StartCamera.eye, StartCamera.center, StartCamera.up),
               Perspective(windowWidth as real, windowHeight as real),
               ViewportMap(framebufferWidth as real, framebufferHeight as real),
               0.0),
      Zero3, Zero3, 1.0, StartCamera)
  }

  /** The two differ only in the viewport, and only for a framebuffer that is not square. */
  lemma InitAsWrittenDiffers(windowDimensions: (nat, nat), framebufferDimensions: (nat, nat))
    ensures InitAsWritten(windowDimensions, framebufferDimensions) ==
      Init(windowDimensions, framebufferDimensions).(uniforms :=
        Init(windowDimensions, framebufferDimensions).uniforms.(viewportMatrix :=
          ViewportMap(framebufferDimensions.1 as real, framebufferDimensions.0 as real)))
    ensures InitAsWritten(windowDimensions, framebufferDimensions) == Init(windowDimensions, framebufferDimensions)
      <==> framebufferDimensions.0 == framebufferDimensions.1
  {
  }

  /** With the dimensions main uses, the viewport maps onto a 666 x 1000 area instead of 1000 x 666. */
  lemma InitSwapsViewport()
    ensures InitAsWritten((1080, 720), (1000, 666)).uniforms.viewportMatrix == ViewportMap(666.0, 1000.0)
    ensures Init((1080, 720), (1000, 666)).uniforms.viewportMatrix == ViewportMap(1000.0, 666.0)
    ensures InitAsWritten((1080, 720), (1000, 666)) != Init((1080, 720), (1000, 666))
  {
    InitAsWrittenDiffers((1080, 720), (1000, 666));
  }

  /** `last_recorded_frames_max_count`. */
  const FrameWindow: nat := 60

  /** The last `n` elements of `s`, or all of it when it is shorter. */
  function LastN(s: seq<nat>, n: nat): (r: seq<nat>)
    ensures |r| == if |s| < n then |s| else n
  {
    if |s| < n then s else s[|s| - n..]
  }

  /** Pop the oldest frame time when the window is full, then push the new one. */
  function RecordFrame(window: seq<nat>, millis: nat): (r: seq<nat>)
    ensures |window| <= FrameWindow ==> 0 < |r| <= FrameWindow
    ensures |r| > 0 && r[|r| - 1] == millis
    ensures |window| < FrameWindow ==> |r| == |window| + 1
  {
    (if |window| == FrameWindow then window[1..] else window) + [millis]
  }

  /** The window always holds the last 60 frame times of the whole run, oldest first. */
  lemma RecordFrameKeepsLastN(history: seq<nat>, millis: nat)
    ensures RecordFrame(LastN(history, FrameWindow), millis) == LastN(history + [millis], FrameWindow)
  {
    var h := history + [millis];
    if |history| < FrameWindow {
      assert LastN(h, FrameWindow) == h;
    } else {
      var w := history[|history| - FrameWindow..];
      assert w[1..] + [millis] == h[|h| - FrameWindow..];
    }
  }

}
