/**
  The vision gallery of the single-page site: an index into a fixed list of
  scenes. A timer advances it every four seconds, wrapping around, and one
  button per scene jumps straight to that scene.
 */
module VisionGallery {

  /** A scene; `caption` is the `label` shown on its button. */
  datatype Scene = Scene(key: string, caption: string, src: string)

  const Scenes: seq<Scene> := [
    Scene("fire1", "Fire", "/vision/fire1.png"),
    Scene("ppe", "PPE", "/vision/ppe.png"),
    Scene("fire2", "Fire (alt)", "/vision/fire2.png"),
    Scene("fall", "Fall", "/vision/fall.png")
  ]

  /** `(p + 1) % len`: the next index, wrapping from the last to the first. */
  function NextIndex(p: nat, len: nat): (r: nat)
    requires len > 0
    ensures r < len
    ensures p + 1 < len ==> r == p + 1
    ensures p + 1 == len ==> r == 0
  {
    (p + 1) % len
  }

  /** The index after `k` timer ticks from `p`. */
  function AfterTicks(p: nat, k: nat, len: nat): (r: nat)
    requires len > 0
    decreases k
  {
    if k == 0 then p else NextIndex(AfterTicks(p, k - 1, len), len)
  }

  /** From an index in range, `k` ticks move it `k` places on, modulo the
      number of scenes: the timer visits every scene in turn. */
  lemma {:induction false} AfterTicksIsRotation(p: nat, k: nat, len: nat)
    requires p < len
    ensures AfterTicks(p, k, len) == (p + k) % len
    decreases k
  {
    if k == 0 {
      assert (p + 0) % len == p by { ModOfSum(0, len, p); }
    } else {
      AfterTicksIsRotation(p, k - 1, len);
      NextIndexOfRemainder(p + k - 1, len);
    }
  }

  /** Advancing the remainder of `n` gives the remainder of `n + 1`. */
  lemma NextIndexOfRemainder(n: nat, len: nat)
    requires len > 0
    ensures NextIndex(n % len, len) == (n + 1) % len
  {
    var q, m := n / len, n % len;
    assert n == q * len + m;
    if m + 1 < len {
      ModOfSum(q, len, m + 1);
    } else {
      assert n + 1 == (q + 1) * len;
      ModOfSum(q + 1, len, 0);
    }
  }

  /** Division with remainder has one answer. */
  lemma ModOfSum(q: nat, len: nat, r: nat)
    requires r < len
    ensures (q * len + r) % len == r
  {
    var n := q * len + r;
    var q', r' := n / len, n % len;
    assert n == q' * len + r';
    var d := q - q';
    assert d * len == r' - r;
    if d >= 1 {
      MultipleAtLeast(d, len);
      assert false;
    }
    if d <= -1 {
      NegativeMultipleAtMost(d, len);
      assert false;
    }
  }

  /** A positive multiple of `len` is at least `len`. */
  lemma {:induction false} MultipleAtLeast(d: int, len: nat)
    requires d >= 1
    ensures d * len >= len
    decreases d
  {
    if d > 1 {
      MultipleAtLeast(d - 1, len);
      assert d * len == (d - 1) * len + len;
    }
  }

  /** A negative multiple of `len` is at most minus `len`. */
  lemma NegativeMultipleAtMost(d: int, len: nat)
    requires d <= -1
    ensures d * len + len <= 0
  {
    MultipleAtLeast(-d, len);
    assert (-d) * len == -(d * len);
  }

  class Gallery {
    /** The index `i` of the shown scene. */
    var i: nat

    /** The index is in range, so `scenes[i]`, the scene shown, always exists. */
    ghost predicate Valid()
      reads this
    {
      i < |Scenes|
    }

    constructor ()
      ensures Valid() && i == 0
    {
      i := 0;
    }

    /** The interval callback. */
    method Tick()
      requires Valid()
      modifies this
      ensures Valid() && i == NextIndex(old(i), |Scenes|)
    {
      i := (i + 1) % |Scenes|;
    }

    /** The button of scene `idx`; there is one button per scene. */
    method Choose(idx: nat)
      requires idx < |Scenes|
      modifies this
      ensures Valid() && i == idx
    {
      i := idx;
    }
  }
}
