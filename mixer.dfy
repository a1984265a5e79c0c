/** The `Mixer`: the buffers, the per-channel trims and the flattened link
    matrix it owns, its construction with every field defaulted, and its
    `process` step. */
module Engine {
  import opened MixerTypes
  import opened Matrix

  class Mixer {
    var inputs: array<Buffer>
    var outputs: array<Buffer>
    /** Per-input and per-output trims; stored, never read by processing. */
    var pre: array<MixProperty>
    var post: array<MixProperty>
    /** The link from input `i` to output `o` sits at `o * INPUTS + i`. */
    var intern: array<Link>

    /** The fixed shape of the fields, and distinct input and output buffers. */
    ghost predicate Valid()
      reads this
    {
      inputs.Length == INPUTS && outputs.Length == OUTPUTS
      && pre.Length == INPUTS && post.Length == OUTPUTS
      && intern.Length == INPUTS * OUTPUTS
      && inputs != outputs
    }

    /** Every field holds its default value. */
    predicate IsDefault()
      reads this, inputs, outputs, pre, post, intern
    {
      (forall i :: 0 <= i < inputs.Length ==> inputs[i] == DefaultBuffer())
      && (forall o :: 0 <= o < outputs.Length ==> outputs[o] == DefaultBuffer())
      && (forall i :: 0 <= i < pre.Length ==> pre[i] == DefaultProperty())
      && (forall o :: 0 <= o < post.Length ==> post[o] == DefaultProperty())
      && (forall k :: 0 <= k < intern.Length ==> intern[k] == DefaultLink())
    }

    /** `Mixer::new`: absent buffers, default trims, and every link active,
        unmuted, at unit gain and centre pan. */
    constructor ()
      ensures Valid() && IsDefault()
      ensures fresh(inputs) && fresh(outputs) && fresh(pre) && fresh(post) && fresh(intern)
    {
      inputs := new Buffer[INPUTS](_ => DefaultBuffer());
      outputs := new Buffer[OUTPUTS](_ => DefaultBuffer());
      pre := new MixProperty[INPUTS](_ => DefaultProperty());
      post := new MixProperty[OUTPUTS](_ => DefaultProperty());
      intern := new Link[INPUTS * OUTPUTS](_ => DefaultLink());
    }

    /** `Mixer::process`: runs `process_matrix` over the mixer's own matrix
        and buffers and unwraps its result. The shape of the fields always
        passes the dimension guard, so the unwrap never panics; as the walk
        is written, the outputs are left as they were. */
    method Process(t: Trig)
      requires Valid()
      modifies outputs
      ensures Valid()
      ensures outputs[..] == old(outputs[..])
    {
      var r;
      ghost var visits;
      r, visits := ProcessMatrix(intern, inputs, outputs, t);
      assert r == Ok;
    }
  }

  /** A fresh mixer, processed once, is still valid and in its default state. */
  method NewThenProcess(t: Trig) returns (m: Mixer)
    ensures m.Valid() && m.IsDefault()
  {
    m := new Mixer();
    m.Process(t);
  }
}
