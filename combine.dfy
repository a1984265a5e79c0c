/** The per-link combination rule of `process_matrix`: what one active,
    unmuted link does to a copy of its output buffer, chosen by the pair
    (output arity, input arity), and what that rule means — which pairs
    accumulate, which overwrite, and how links then compose. */
module Combination {
  import opened MixerTypes

  /** Stereo into stereo, one sample position: separation when `pan < 0.5`,
      merging when `pan > 0.5` (both assign), pass-through otherwise
      (accumulates). The two sub-branches that assign apply only when the
      input's left and right samples differ. */
  function StereoSample(outL: real, outR: real, inL: real, inR: real, p: MixProperty, t: Trig): (real, real)
  {
    if inL != inR && p.pan < 0.5 then
      var ratio := p.pan * t.pi;
      ((inL + inR * ratio) * p.gain, (inR + inL * ratio) * p.gain)
    else if inL != inR && p.pan > 0.5 then
      var ratio1 := t.cos(Rad(1.5 - p.pan, t));
      var ratio2 := t.sin(Rad(p.pan - 0.5, t));
      ((inL * ratio1 + inR * ratio2) * p.gain, (inR * ratio1 + inL * ratio2) * p.gain)
    else
      (outL + inL * p.gain, outR + inR * p.gain)
  }

  /** A control value in [0, 1] as an angle in radians: `x * 0.5 * PI`. */
  function Rad(x: real, t: Trig): real
  {
    x * 0.5 * t.pi
  }

  /** Stereo into mono, one sample: the downmix rotated by the pan angle. */
  function DownmixSample(inL: real, inR: real, p: MixProperty, t: Trig): real
  {
    (inL * t.cos(Rad(p.pan, t)) + inR * t.sin(Rad(p.pan, t))) * p.gain
  }

  /** Mono into stereo, one sample: the left and right equal-power shares. */
  function PanSample(x: real, p: MixProperty, t: Trig): (real, real)
  {
    (x * t.cos(Rad(p.pan, t)) * p.gain, x * t.sin(Rad(p.pan, t)) * p.gain)
  }

  /** The gain scaled to the bipolar domain: `2 * gain - 1`. */
  function BipolarGain(p: MixProperty): real
  {
    2.0 * p.gain - 1.0
  }

  /** The pan scaled to the bipolar domain: `2 * pan - 1`. */
  function BipolarPan(p: MixProperty): real
  {
    2.0 * p.pan - 1.0
  }

  /** Silence into stereo: the bipolar gain shared between left and right
      by the pan angle. */
  function BipolarSample(p: MixProperty, t: Trig): (real, real)
  {
    (t.cos(Rad(p.pan, t)) * BipolarGain(p), t.sin(Rad(p.pan, t)) * BipolarGain(p))
  }

  /** The value one link leaves in its copy of the output buffer `out`,
      given the input buffer `inp` and the link's properties `p`. The
      output keeps its arity, and an absent output is left alone. */
  function Combine(out: Buffer, inp: Buffer, p: MixProperty, t: Trig): (r: Buffer)
    ensures Arity(r) == Arity(out)
    ensures out.None? ==> r == None
  {
    match out
    case None => None
    case Mono(o) => (
      match inp
      case None =>
        Mono(seq(BUFFER_SIZE, k requires 0 <= k < BUFFER_SIZE => o[k] + p.gain * BipolarPan(p)))
      case Mono(x) =>
        Mono(seq(BUFFER_SIZE, k requires 0 <= k < BUFFER_SIZE => o[k] + x[k] * p.gain))
      case Stereo(inL, inR) =>
        Mono(seq(BUFFER_SIZE, k requires 0 <= k < BUFFER_SIZE => o[k] + DownmixSample(inL[k], inR[k], p, t))))
    case Stereo(ol, or) => (
      match inp
      case None =>
        Stereo(seq(BUFFER_SIZE, k requires 0 <= k < BUFFER_SIZE => ol[k] + BipolarSample(p, t).0),
               seq(BUFFER_SIZE, k requires 0 <= k < BUFFER_SIZE => or[k] + BipolarSample(p, t).1))
      case Mono(x) =>
        Stereo(seq(BUFFER_SIZE, k requires 0 <= k < BUFFER_SIZE => ol[k] + PanSample(x[k], p, t).0),
               seq(BUFFER_SIZE, k requires 0 <= k < BUFFER_SIZE => or[k] + PanSample(x[k], p, t).1))
      case Stereo(inL, inR) =>
        Stereo(seq(BUFFER_SIZE, k requires 0 <= k < BUFFER_SIZE => StereoSample(ol[k], or[k], inL[k], inR[k], p, t).0),
               seq(BUFFER_SIZE, k requires 0 <= k < BUFFER_SIZE => StereoSample(ol[k], or[k], inL[k], inR[k], p, t).1)))
  }

  /** The link adds to its output at every sample: every arity pair except
      stereo into stereo off centre with left differing from right. */
  predicate Accumulates(out: Buffer, inp: Buffer, p: MixProperty)
  {
    !(out.Stereo? && inp.Stereo?) || p.pan == 0.5 || inp.l == inp.r
  }

  /** The link assigns to its output at every sample: stereo into stereo,
      off centre, with left and right differing at every sample. */
  predicate Overwrites(out: Buffer, inp: Buffer, p: MixProperty)
  {
    out.Stereo? && inp.Stereo? && p.pan != 0.5
    && forall k :: 0 <= k < BUFFER_SIZE ==> inp.l[k] != inp.r[k]
  }

  // ---------------------------------------------------------------------
  // Sample-wise addition of buffers

  lemma PlusCommutes(a: Buffer, b: Buffer)
    requires Arity(a) == Arity(b)
    ensures Plus(a, b) == Plus(b, a)
  {
    match a
    case None =>
    case Mono(x) =>
      assert AddChannels(x, b.m) == AddChannels(b.m, x);
    case Stereo(x, y) =>
      assert AddChannels(x, b.l) == AddChannels(b.l, x);
      assert AddChannels(y, b.r) == AddChannels(b.r, y);
  }

  lemma PlusAssociates(a: Buffer, b: Buffer, c: Buffer)
    requires Arity(a) == Arity(b) == Arity(c)
    ensures Plus(Plus(a, b), c) == Plus(a, Plus(b, c))
  {
    match a
    case None =>
    case Mono(x) =>
      assert AddChannels(AddChannels(x, b.m), c.m) == AddChannels(x, AddChannels(b.m, c.m));
    case Stereo(x, y) =>
      assert AddChannels(AddChannels(x, b.l), c.l) == AddChannels(x, AddChannels(b.l, c.l));
      assert AddChannels(AddChannels(y, b.r), c.r) == AddChannels(y, AddChannels(b.r, c.r));
  }

  // ---------------------------------------------------------------------
  // Accumulation and overwriting

  /** Every accumulating link adds to the output exactly what it would add
      to silence: its contribution does not depend on what the output held. */
  lemma CombineAccumulates(out: Buffer, inp: Buffer, p: MixProperty, t: Trig)
    requires Accumulates(out, inp, p)
    ensures Combine(out, inp, p, t) == Plus(out, Combine(Silence(out), inp, p, t))
  {
    var r := Combine(out, inp, p, t);
    var d := Combine(Silence(out), inp, p, t);
    match out
    case None =>
    case Mono(o) =>
      assert r.m == AddChannels(o, d.m);
    case Stereo(ol, or) =>
      if inp.Stereo? {
        forall k | 0 <= k < BUFFER_SIZE
          ensures r.l[k] == ol[k] + d.l[k] && r.r[k] == or[k] + d.r[k]
        {
          assert inp.l[k] == inp.r[k] || p.pan == 0.5;
        }
      }
      assert r.l == AddChannels(ol, d.l);
      assert r.r == AddChannels(or, d.r);
  }

  /** An overwriting link discards what the output held: the result is the
      same as if the output had been silent. */
  lemma CombineOverwrites(out: Buffer, inp: Buffer, p: MixProperty, t: Trig)
    requires Overwrites(out, inp, p)
    ensures Combine(out, inp, p, t) == Combine(Silence(out), inp, p, t)
  {
    var r := Combine(out, inp, p, t);
    var d := Combine(Silence(out), inp, p, t);
    assert r.l == d.l;
    assert r.r == d.r;
  }

  /** Two accumulating links may be applied in either order. */
  lemma AccumulatingLinksCommute(out: Buffer, a: Buffer, p: MixProperty, b: Buffer, q: MixProperty, t: Trig)
    requires Accumulates(out, a, p) && Accumulates(out, b, q)
    ensures Combine(Combine(out, a, p, t), b, q, t) == Combine(Combine(out, b, q, t), a, p, t)
  {
    var da := Combine(Silence(out), a, p, t);
    var db := Combine(Silence(out), b, q, t);
    var oa := Combine(out, a, p, t);
    var ob := Combine(out, b, q, t);
    CombineAccumulates(out, a, p, t);
    CombineAccumulates(out, b, q, t);
    assert Silence(oa) == Silence(out) && Silence(ob) == Silence(out);
    CombineAccumulates(oa, b, q, t);
    CombineAccumulates(ob, a, p, t);
    PlusAssociates(out, da, db);
    PlusAssociates(out, db, da);
    PlusCommutes(da, db);
  }

  /** A link that overwrites discards what every earlier link wrote to the
      same output: the earlier link's contribution is lost. */
  lemma OverwriteDiscardsEarlier(out: Buffer, a: Buffer, p: MixProperty, b: Buffer, q: MixProperty, t: Trig)
    requires Overwrites(out, b, q)
    ensures Combine(Combine(out, a, p, t), b, q, t) == Combine(out, b, q, t)
  {
    var oa := Combine(out, a, p, t);
    assert Silence(oa) == Silence(out);
    CombineOverwrites(oa, b, q, t);
    CombineOverwrites(out, b, q, t);
  }

  /** Every link either accumulates or overwrites: a channel holds a single
      sample, so its left and right either differ at every sample or agree. */
  lemma AccumulatesOrOverwrites(out: Buffer, inp: Buffer, p: MixProperty)
    ensures Accumulates(out, inp, p) || Overwrites(out, inp, p)
  {
  }

  /** Accumulation and overwriting are exclusive. */
  lemma AccumulatesExcludesOverwrites(out: Buffer, inp: Buffer, p: MixProperty)
    requires Overwrites(out, inp, p)
    ensures !Accumulates(out, inp, p)
  {
    assert inp.l[0] != inp.r[0];
  }

  // ---------------------------------------------------------------------
  // The rule of each arity pair, one sample at a time

  /** Silence into mono adds `gain * (2 pan - 1)` to every sample. */
  lemma MonoFromNone(o: Channel, p: MixProperty, t: Trig, k: nat)
    requires k < BUFFER_SIZE
    ensures Combine(Mono(o), None, p, t).m[k] == o[k] + p.gain * (2.0 * p.pan - 1.0)
  {
    assert BipolarPan(p) == 2.0 * p.pan - 1.0;
  }

  /** Mono into mono adds `in * gain` to every sample; the pan is ignored. */
  lemma MonoFromMono(o: Channel, x: Channel, p: MixProperty, t: Trig, k: nat, pan: real)
    requires k < BUFFER_SIZE
    ensures Combine(Mono(o), Mono(x), p, t).m[k] == o[k] + x[k] * p.gain
    ensures Combine(Mono(o), Mono(x), p, t) == Combine(Mono(o), Mono(x), p.(pan := pan), t)
  {
  }

  /** Stereo into mono adds the pan-rotated downmix times gain. */
  lemma MonoFromStereo(o: Channel, l: Channel, r: Channel, p: MixProperty, t: Trig, k: nat)
    requires k < BUFFER_SIZE
    ensures var rad := Rad(p.pan, t);
      Combine(Mono(o), Stereo(l, r), p, t).m[k] == o[k] + (l[k] * t.cos(rad) + r[k] * t.sin(rad)) * p.gain
  {
  }

  /** Silence into stereo adds `cos θ (2 gain - 1)` left and `sin θ (2 gain - 1)` right. */
  lemma StereoFromNone(ol: Channel, or: Channel, p: MixProperty, t: Trig, k: nat)
    requires k < BUFFER_SIZE
    ensures var rad := Rad(p.pan, t);
      var c := Combine(Stereo(ol, or), None, p, t);
      c.l[k] == ol[k] + t.cos(rad) * (2.0 * p.gain - 1.0) && c.r[k] == or[k] + t.sin(rad) * (2.0 * p.gain - 1.0)
  {
    var c := Combine(Stereo(ol, or), None, p, t);
    assert c.l[k] == ol[k] + BipolarSample(p, t).0;
    assert c.r[k] == or[k] + BipolarSample(p, t).1;
  }

  /** Mono into stereo pans with equal power: `in cos θ gain` left, `in sin θ gain` right. */
  lemma StereoFromMono(ol: Channel, or: Channel, x: Channel, p: MixProperty, t: Trig, k: nat)
    requires k < BUFFER_SIZE
    ensures var rad := Rad(p.pan, t);
      var c := Combine(Stereo(ol, or), Mono(x), p, t);
      c.l[k] == ol[k] + x[k] * t.cos(rad) * p.gain && c.r[k] == or[k] + x[k] * t.sin(rad) * p.gain
  {
  }

  /** Stereo into stereo, left of centre with differing sides: separation,
      assigned over whatever the output held. */
  lemma StereoSeparation(ol: Channel, or: Channel, l: Channel, r: Channel, p: MixProperty, t: Trig, k: nat)
    requires k < BUFFER_SIZE && p.pan < 0.5 && l[k] != r[k]
    ensures var c := Combine(Stereo(ol, or), Stereo(l, r), p, t);
      c.l[k] == (l[k] + r[k] * (p.pan * t.pi)) * p.gain && c.r[k] == (r[k] + l[k] * (p.pan * t.pi)) * p.gain
  {
  }

  /** Stereo into stereo, right of centre with differing sides: merging,
      assigned over whatever the output held. */
  lemma StereoMerging(ol: Channel, or: Channel, l: Channel, r: Channel, p: MixProperty, t: Trig, k: nat)
    requires k < BUFFER_SIZE && p.pan > 0.5 && l[k] != r[k]
    ensures var ratio1 := t.cos(Rad(1.5 - p.pan, t));
      var ratio2 := t.sin(Rad(p.pan - 0.5, t));
      var c := Combine(Stereo(ol, or), Stereo(l, r), p, t);
      c.l[k] == (l[k] * ratio1 + r[k] * ratio2) * p.gain && c.r[k] == (r[k] * ratio1 + l[k] * ratio2) * p.gain
  {
  }

  /** Stereo into stereo at centre pan, or with equal sides: pass-through,
      accumulated. */
  lemma StereoPassThrough(ol: Channel, or: Channel, l: Channel, r: Channel, p: MixProperty, t: Trig, k: nat)
    requires k < BUFFER_SIZE && (p.pan == 0.5 || l[k] == r[k])
    ensures var c := Combine(Stereo(ol, or), Stereo(l, r), p, t);
      c.l[k] == ol[k] + l[k] * p.gain && c.r[k] == or[k] + r[k] * p.gain
  {
  }

  // ---------------------------------------------------------------------
  // Behaviour with the default link properties

  /** A default link passes a mono input into a mono output unchanged. */
  lemma DefaultMonoIdentity(o: Channel, x: Channel, t: Trig)
    ensures Combine(Mono(o), Mono(x), DefaultProperty(), t) == Plus(Mono(o), Mono(x))
  {
    assert Combine(Mono(o), Mono(x), DefaultProperty(), t).m == AddChannels(o, x);
  }

  /** A default link passes a stereo input into a stereo output unchanged. */
  lemma DefaultStereoPassThrough(ol: Channel, or: Channel, l: Channel, r: Channel, t: Trig)
    ensures Combine(Stereo(ol, or), Stereo(l, r), DefaultProperty(), t) == Plus(Stereo(ol, or), Stereo(l, r))
  {
    var c := Combine(Stereo(ol, or), Stereo(l, r), DefaultProperty(), t);
    assert c.l == AddChannels(ol, l);
    assert c.r == AddChannels(or, r);
  }

  /** A default link spreads a mono input over both sides at the centre angle (`PI / 4`). */
  lemma DefaultMonoToStereo(ol: Channel, or: Channel, x: Channel, t: Trig, k: nat)
    requires k < BUFFER_SIZE
    ensures var c := Combine(Stereo(ol, or), Mono(x), DefaultProperty(), t);
      c.l[k] == ol[k] + x[k] * t.cos(Rad(0.5, t)) && c.r[k] == or[k] + x[k] * t.sin(Rad(0.5, t))
  {
  }
}
