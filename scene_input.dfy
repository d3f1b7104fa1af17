/**
 * The camera input of the ray tracer's `Transform`: the perspective record,
 * the decaying scroll accumulator, the arrow-key flags, the mouse drag
 * samples, and the control flow of `Transform::operate` that consumes them
 * once per frame. Doubles are idealised as `real`; the camera matrices, the
 * position vector and the projection constant are not modelled, only
 * whether the branch that would update them fires.
 */
module CameraInput {

  function Abs(x: real): (r: real)
    ensures r >= 0.0 && (r == x || r == -x)
  {
    if x < 0.0 then -x else x
  }

  // ---------------------------------------------------------------------
  // Perspective

  class Perspective {
    /** The viewport height the projection constant is computed from. */
    var y: int
    /** Set by a resize, cleared when `Transform::operate` reprojects. */
    var updated: bool

    constructor ()
      ensures y == 1024 && !updated
    {
      y, updated := 1024, false;
    }

    constructor FromData(height: int)
      ensures y == height && !updated
    {
      y, updated := height, false;
    }

    /** `init`: take the frame height, with nothing pending. */
    method Init(h: int)
      modifies this
      ensures y == h && !updated
    {
      y, updated := h, false;
    }

    /** `refresh`: take the new height and mark the projection stale. */
    method Refresh(w: int, h: int)
      modifies this
      ensures y == h && updated
    {
      y, updated := h, true;
    }
  }

  // ---------------------------------------------------------------------
  // Scroll

  /** The accumulator after one `operate`: it decays only above the threshold. */
  function Decay(total: real, ratio: real, threshold: real): (t: real)
    ensures Abs(total) > threshold ==> t == total * ratio
    ensures Abs(total) <= threshold ==> t == total
  {
    if Abs(total) > threshold then total * ratio else total
  }

  /** What one `operate` returns: the decayed total above the threshold, 0 otherwise. */
  function ScrollOutput(total: real, ratio: real, threshold: real): (r: real)
    ensures r != 0.0 ==> Abs(total) > threshold && r == Decay(total, ratio, threshold)
    ensures threshold >= 0.0 && Abs(total) > threshold && ratio != 0.0 ==> r != 0.0
  {
    if Abs(total) > threshold then total * ratio else 0.0
  }

  /** The accumulator after `n` frames without wheel events. */
  function DecayN(total: real, ratio: real, threshold: real, n: nat): real
    decreases n
  {
    if n == 0 then total else DecayN(Decay(total, ratio, threshold), ratio, threshold, n - 1)
  }

  /**
   * Once the accumulator is within the threshold it stays put, and every
   * later `operate` returns 0: scrolling has come to rest.
   */
  lemma {:induction false} RestIsPermanent(total: real, ratio: real, threshold: real, n: nat)
    requires Abs(total) <= threshold
    ensures DecayN(total, ratio, threshold, n) == total
    ensures ScrollOutput(DecayN(total, ratio, threshold, n), ratio, threshold) == 0.0
  {
    if n > 0 {
      RestIsPermanent(total, ratio, threshold, n - 1);
    }
  }

  /** With a ratio in [0, 1] the accumulator's magnitude never grows. */
  lemma {:induction false} DecayShrinks(total: real, ratio: real, threshold: real, n: nat)
    requires 0.0 <= ratio <= 1.0
    ensures Abs(DecayN(total, ratio, threshold, n)) <= Abs(total)
    decreases n
  {
    if n > 0 {
      var t := Decay(total, ratio, threshold);
      DecayShrinks(t, ratio, threshold, n - 1);
      if Abs(total) > threshold {
        AbsScale(total, ratio);
      }
    }
  }

  lemma AbsScale(x: real, ratio: real)
    requires 0.0 <= ratio <= 1.0
    ensures Abs(x * ratio) == Abs(x) * ratio <= Abs(x)
  {
    if x < 0.0 {
      assert x * ratio == -((-x) * ratio);
    }
  }

  class Scroll {
    var increaseDelta: real
    var decreaseRatio: real
    var threshold: real
    var total: real

    /**
     * The defaults 0.05, 0.95 and 0.01, with the total starting at the
     * threshold: at rest, so the first `operate` reports 0 and keeps it.
     */
    constructor ()
      ensures increaseDelta == 0.05 && decreaseRatio == 0.95 && threshold == 0.01
      ensures total == threshold
      ensures ScrollOutput(total, decreaseRatio, threshold) == 0.0
      ensures Decay(total, decreaseRatio, threshold) == total
    {
      increaseDelta, decreaseRatio, threshold := 0.05, 0.95, 0.01;
      total := 0.01;
    }

    constructor FromData(inc: real, dec: real, thr: real)
      ensures increaseDelta == inc && decreaseRatio == dec && threshold == thr
      ensures total == thr
    {
      increaseDelta, decreaseRatio, threshold, total := inc, dec, thr, thr;
    }

    /** A wheel event of `d` notches. */
    method Refresh(d: real)
      modifies this
      ensures total == old(total) + d * increaseDelta
      ensures increaseDelta == old(increaseDelta) && decreaseRatio == old(decreaseRatio)
      ensures threshold == old(threshold)
    {
      total := total + d * increaseDelta;
    }

    /** One frame's scroll: decay above the threshold and report, else report 0. */
    method Operate() returns (r: real)
      modifies this
      ensures r == ScrollOutput(old(total), decreaseRatio, threshold)
      ensures total == Decay(old(total), decreaseRatio, threshold)
      ensures increaseDelta == old(increaseDelta) && decreaseRatio == old(decreaseRatio)
      ensures threshold == old(threshold)
    {
      if Abs(total) > threshold {
        total := total * decreaseRatio;
        r := total;
      } else {
        r := 0.0;
      }
    }
  }

  // ---------------------------------------------------------------------
  // Keys

  /** The movement one axis of the keyboard asks for: `ratio * (plus - minus)`. */
  function KeyAxis(plus: bool, minus: bool, ratio: real): (v: real)
    ensures plus == minus ==> v == 0.0
    ensures plus && !minus ==> v == ratio
    ensures minus && !plus ==> v == -ratio
  {
    ratio * ((if plus then 1.0 else 0.0) - (if minus then 1.0 else 0.0))
  }

  class Key {
    var left: bool
    var right: bool
    var up: bool
    var down: bool
    var ratio: real

    constructor (r: real)
      ensures !left && !right && !up && !down && ratio == r
    {
      left, right, up, down, ratio := false, false, false, false, r;
    }

    /** Codes 0..3 are left, right, up and down; any other code is ignored. */
    method Refresh(code: int, pressed: bool)
      modifies this
      ensures left == (if code == 0 then pressed else old(left))
      ensures right == (if code == 1 then pressed else old(right))
      ensures up == (if code == 2 then pressed else old(up))
      ensures down == (if code == 3 then pressed else old(down))
      ensures ratio == old(ratio)
    {
      match code
      case 0 => left := pressed;
      case 1 => right := pressed;
      case 2 => up := pressed;
      case 3 => down := pressed;
      case _ =>
    }

    /** `operate`: the in-plane movement, horizontal then vertical; no state changes. */
    function Operate(): (v: (real, real))
      reads this
      ensures v.0 == (if right == left then 0.0 else if right then ratio else -ratio)
      ensures v.1 == (if up == down then 0.0 else if up then ratio else -ratio)
    {
      (KeyAxis(right, left, ratio), KeyAxis(up, down, ratio))
    }
  }

  // ---------------------------------------------------------------------
  // Mouse

  /** One pointer sample; the coordinates mean nothing while `valid` is false. */
  datatype Pointer = Pointer(x: real, y: real, valid: bool)

  /** The drag since the previous sample, (dy, dx), when both samples are valid. */
  function DragDelta(now: Pointer, pre: Pointer): (d: (real, real))
    ensures !(now.valid && pre.valid) ==> d == (0.0, 0.0)
    ensures now.valid && pre.valid ==> d.0 == now.y - pre.y && d.1 == now.x - pre.x
  {
    if now.valid && pre.valid then (now.y - pre.y, now.x - pre.x) else (0.0, 0.0)
  }

  class Mouse {
    var now: Pointer
    var pre: Pointer
    var left: bool
    var middle: bool
    var right: bool

    /** The previous sample is only ever valid while the current one is. */
    ghost predicate Valid()
      reads this
    {
      pre.valid ==> now.valid
    }

    constructor ()
      ensures Valid() && !now.valid && !pre.valid
      ensures !left && !middle && !right
    {
      now, pre := Pointer(0.0, 0.0, false), Pointer(0.0, 0.0, false);
      left, middle, right := false, false, false;
    }

    /**
     * A pointer move: with the left button up both samples are dropped;
     * with it held, the current sample shifts to the previous one (if it
     * was valid) and the new point becomes current.
     */
    method RefreshPos(x: real, y: real)
      requires Valid()
      modifies this
      ensures Valid()
      ensures !left ==> !now.valid && !pre.valid
      ensures left && old(now.valid) ==> pre == old(now) && now == Pointer(x, y, true)
      ensures left && !old(now.valid) ==> now == Pointer(x, y, true) && pre == old(pre)
      ensures left == old(left) && middle == old(middle) && right == old(right)
    {
      if left {
        if now.valid {
          pre := now;
          now := now.(x := x, y := y);
        } else {
          now := Pointer(x, y, true);
        }
      } else {
        now := now.(valid := false);
        pre := pre.(valid := false);
      }
    }

    /** Buttons 0..2 are left, middle and right; the samples are not touched. */
    method RefreshButton(button: int, pressed: bool)
      requires Valid()
      modifies this
      ensures Valid()
      ensures now == old(now) && pre == old(pre)
      ensures left == (if button == 0 then pressed else old(left))
      ensures middle == (if button == 1 then pressed else old(middle))
      ensures right == (if button == 2 then pressed else old(right))
    {
      match button
      case 0 => left := pressed;
      case 1 => middle := pressed;
      case 2 => right := pressed;
      case _ =>
    }

    /** Consume the drag: report it once and invalidate the previous sample. */
    method Operate() returns (d: (real, real))
      requires Valid()
      modifies this
      ensures Valid()
      ensures d == DragDelta(old(now), old(pre))
      ensures now == old(now) && !pre.valid && DragDelta(now, pre) == (0.0, 0.0)
      ensures pre == old(pre).(valid := false)
      ensures left == old(left) && middle == old(middle) && right == old(right)
    {
      if now.valid && pre.valid {
        pre := pre.(valid := false);
        d := (now.y - pre.y, now.x - pre.x);
      } else {
        pre := pre.(valid := false);
        d := (0.0, 0.0);
      }
    }
  }

  // ---------------------------------------------------------------------
  // Transform

  class Transform {
    const persp: Perspective
    const scroll: Scroll
    const key: Key
    const mouse: Mouse
    /** The distance that scales a drag into a rotation angle. */
    var depth: real
    /** Set whenever the camera block must be uploaded again. */
    var updated: bool

    ghost predicate Valid()
      reads this, mouse
    {
      mouse.Valid()
    }

    /** The default camera: depth 500, nothing pending. */
    constructor ()
      ensures Valid() && !updated && depth == 500.0
      ensures !persp.updated && persp.y == 1024
      ensures scroll.total == scroll.threshold == 0.01
      ensures !mouse.now.valid && !mouse.pre.valid
      ensures !key.left && !key.right && !key.up && !key.down && key.ratio == 0.05
    {
      persp := new Perspective();
      scroll := new Scroll();
      key := new Key(0.05);
      mouse := new Mouse();
      depth, updated := 500.0, false;
    }

    /** The camera built from saved settings: their height, scroll, key ratio and depth. */
    constructor FromData(height: int, inc: real, dec: real, thr: real, keyRatio: real, d: real)
      ensures Valid() && !updated && depth == d
      ensures !persp.updated && persp.y == height
      ensures scroll.increaseDelta == inc && scroll.decreaseRatio == dec
      ensures scroll.threshold == thr && scroll.total == thr
      ensures !mouse.now.valid && !mouse.pre.valid
      ensures !key.left && !key.right && !key.up && !key.down && key.ratio == keyRatio
    {
      persp := new Perspective.FromData(height);
      scroll := new Scroll.FromData(inc, dec, thr);
      key := new Key(keyRatio);
      mouse := new Mouse();
      depth, updated := d, false;
    }

    /** `init`: take the frame height and mark the camera block for upload. */
    method Init(h: int)
      modifies this, persp
      ensures persp.y == h && !persp.updated && updated
      ensures depth == old(depth)
    {
      persp.Init(h);
      updated := true;
    }

    /** `resize`: only records the new height; `operate` reprojects later. */
    method Resize(w: int, h: int)
      modifies persp
      ensures persp.y == h && persp.updated
    {
      persp.Refresh(w, h);
    }

    /**
     * One frame: translate if the keys or the scroll ask for movement,
     * rotate if the mouse was dragged, reproject if the viewport changed;
     * if any of these fired, mark the camera block for upload.
     */
    method Operate() returns (ghost translated: bool, ghost rotated: bool, ghost reprojected: bool)
      requires Valid()
      modifies this, scroll, mouse, persp
      ensures Valid()
      ensures var k := key.Operate();
        translated <==>
          k.0 != 0.0 || k.1 != 0.0 ||
          ScrollOutput(old(scroll.total), old(scroll.decreaseRatio), old(scroll.threshold)) != 0.0
      ensures rotated <==> DragDelta(old(mouse.now), old(mouse.pre)) != (0.0, 0.0)
      ensures reprojected == old(persp.updated)
      ensures !persp.updated && persp.y == old(persp.y)
      ensures updated == (old(updated) || translated || rotated || reprojected)
      ensures scroll.total == Decay(old(scroll.total), old(scroll.decreaseRatio), old(scroll.threshold))
      ensures scroll.increaseDelta == old(scroll.increaseDelta) &&
        scroll.decreaseRatio == old(scroll.decreaseRatio) && scroll.threshold == old(scroll.threshold)
      ensures mouse.pre == old(mouse.pre).(valid := false) && mouse.now == old(mouse.now)
      ensures mouse.left == old(mouse.left) && mouse.middle == old(mouse.middle) &&
        mouse.right == old(mouse.right)
      ensures depth == old(depth)
    {
      var k := key.Operate();
      var z := scroll.Operate();
      var axis := mouse.Operate();
      var operated := false;
      translated := k.0 != 0.0 || k.1 != 0.0 || -z != 0.0;
      if k.0 != 0.0 || k.1 != 0.0 || -z != 0.0 {
        operated := true;
      }
      rotated := axis != (0.0, 0.0);
      if axis != (0.0, 0.0) {
        operated := true;
      }
      reprojected := persp.updated;
      if persp.updated {
        persp.updated := false;
        operated := true;
      }
      if operated {
        updated := true;
      }
    }
  }
}
