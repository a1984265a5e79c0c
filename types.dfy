/** The data model of the mixer: sample buffers of three arities, the mix
    properties of a link, the link itself, and their default values. */
module MixerTypes {

  /** Shape of the mixer (src/mixer/mod.rs:1-3). */
  const INPUTS: nat := 3
  const OUTPUTS: nat := 2
  const BUFFER_SIZE: nat := 1

  /** One channel of a block: a fixed-size array of samples. Samples are
      modelled as reals; f32 rounding is not part of the model. */
  type Channel = s: seq<real> | |s| == BUFFER_SIZE witness [0.0]

  /** A buffer is absent, mono or stereo. */
  datatype Buffer = None | Mono(m: Channel) | Stereo(l: Channel, r: Channel)

  /** Per-link (and per-channel trim) mixing controls. */
  datatype MixProperty = MixProperty(gain: real, pan: real, mute: bool)

  /** One routed edge from an input to an output. */
  datatype Link = Link(active: bool, property: MixProperty)

  /** The error `process_matrix` can report. */
  datatype MatrixError = DimensionMismatch

  /** `Result<(), MatrixError>`. */
  datatype Outcome = Ok | Err(error: MatrixError)

  /** The floating-point library the combination rules call into: `cos`,
      `sin` and the constant `PI`. Their values are not part of the model,
      so every property proved here holds whatever they are. */
  datatype Trig = Trig(cos: real -> real, sin: real -> real, pi: real)

  /** Number of channels a buffer carries. */
  function Arity(b: Buffer): nat
  {
    match b
    case None => 0
    case Mono(_) => 1
    case Stereo(_, _) => 2
  }

  /** `Buffer::default()`: the absent buffer, which no combination rule
      ever writes to. */
  function DefaultBuffer(): (b: Buffer)
    ensures Arity(b) == 0
  {
    None
  }

  /** `MixProperty::default()`: unit gain, centre pan, not muted. */
  function DefaultProperty(): (p: MixProperty)
    ensures !p.mute && p.gain == 1.0 && p.pan == 0.5
  {
    MixProperty(1.0, 0.5, false)
  }

  /** Whether `process_matrix` lets a link through its filter: an inactive
      link and a muted link are both stopped, every other link passes. */
  predicate Passes(link: Link): (pass: bool)
    ensures !link.active ==> !pass
    ensures link.property.mute ==> !pass
    ensures link.active && !link.property.mute ==> pass
  {
    link.active && !link.property.mute
  }

  /** `Link::default()`: an active link carrying the default properties;
      such a link is never filtered out. */
  function DefaultLink(): (link: Link)
    ensures Passes(link)
    ensures link.property == DefaultProperty()
  {
    Link(true, DefaultProperty())
  }

  /** A channel of zeros. */
  function Zeros(): (c: Channel)
    ensures forall k :: 0 <= k < BUFFER_SIZE ==> c[k] == 0.0
  {
    seq(BUFFER_SIZE, _ => 0.0)
  }

  /** The silent buffer of the same arity as `b`. */
  function Silence(b: Buffer): (s: Buffer)
    ensures Arity(s) == Arity(b)
  {
    match b
    case None => None
    case Mono(_) => Mono(Zeros())
    case Stereo(_, _) => Stereo(Zeros(), Zeros())
  }

  /** Sample-wise sum of two channels. */
  function AddChannels(a: Channel, b: Channel): (c: Channel)
    ensures forall k :: 0 <= k < BUFFER_SIZE ==> c[k] == a[k] + b[k]
  {
    seq(BUFFER_SIZE, k requires 0 <= k < BUFFER_SIZE => a[k] + b[k])
  }

  /** Sample-wise sum of two buffers of the same arity. */
  function Plus(a: Buffer, b: Buffer): (c: Buffer)
    requires Arity(a) == Arity(b)
    ensures Arity(c) == Arity(a)
  {
    match a
    case None => None
    case Mono(x) => Mono(AddChannels(x, b.m))
    case Stereo(x, y) => Stereo(AddChannels(x, b.l), AddChannels(y, b.r))
  }
}
