/** `process_matrix`: the dimension guard, the output-major routing of the
    flattened link matrix, the link filter, and the walk over every output
    and every link of its chunk. */
module Matrix {
  import opened MixerTypes
  import opened Combination

  // ---------------------------------------------------------------------
  // Routing: which link feeds which output from which input

  /** Position, in a matrix chunked by `n` inputs, of the link from input
      `i` to output `o`. */
  function LinkIndex(o: nat, i: nat, n: nat): (k: nat)
    requires i < n
    ensures o * n <= k < o * n + n
  {
    o * n + i
  }

  /** Every link of output `o < m` lies inside a matrix of `n * m` links. */
  lemma {:induction false} LinkIndexInRange(o: nat, i: nat, n: nat, m: nat)
    requires o < m && i < n
    ensures LinkIndex(o, i, n) < n * m
  {
    MulMonotone(o + 1, m, n);
    assert (o + 1) * n == o * n + n;
  }

  /** No two (output, input) pairs share a link. */
  lemma {:induction false} LinkIndexInjective(o: nat, i: nat, o': nat, i': nat, n: nat)
    requires i < n && i' < n
    ensures LinkIndex(o, i, n) == LinkIndex(o', i', n) ==> o == o' && i == i'
  {
    if o < o' {
      MulMonotone(o + 1, o', n);
      assert (o + 1) * n == o * n + n;
    } else if o' < o {
      MulMonotone(o' + 1, o, n);
      assert (o' + 1) * n == o' * n + n;
    }
  }

  lemma {:induction false} MulMonotone(a: nat, b: nat, n: nat)
    requires a <= b
    ensures a * n <= b * n
  {
    if a < b {
      MulMonotone(a, b - 1, n);
      assert b * n == (b - 1) * n + n;
    }
  }

  /** The link from input `i` to output `o` in a matrix of `m` chunks of `n`. */
  function LinkAt(matrix: seq<Link>, n: nat, m: nat, o: nat, i: nat): (link: Link)
    requires |matrix| == n * m && o < m && i < n
    ensures LinkIndex(o, i, n) < |matrix| && link == matrix[LinkIndex(o, i, n)]
  {
    LinkIndexInRange(o, i, n, m);
    matrix[LinkIndex(o, i, n)]
  }

  /** The links into output `o` of a matrix holding `m` chunks of `n`:
      `matrix[o * n .. (o + 1) * n]`, whose `i`-th link comes from input `i`. */
  function Chunk(matrix: seq<Link>, n: nat, m: nat, o: nat): (c: seq<Link>)
    requires |matrix| == n * m && o < m
    ensures |c| == n
    ensures forall i :: 0 <= i < n ==> c[i] == LinkAt(matrix, n, m, o, i)
  {
    if n == 0 then [] else
    LinkIndexInRange(o, n - 1, n, m);
    matrix[o * n .. o * n + n]
  }

  // ---------------------------------------------------------------------
  // The walk as written: every write goes to a copy that is dropped

  /** One pass through the body of the inner loop: the link from `input` to
      `output` got through the filter, and `copy` is the value the local copy
      of the output held when the body finished. */
  datatype Visit = Visit(output: nat, input: nat, copy: Buffer)

  /** Link (o2, i2) comes before link (o, i) in the walk. */
  predicate Before(o2: nat, i2: nat, o: nat, i: nat)
  {
    o2 < o || (o2 == o && i2 < i)
  }

  /** The passes of the inner loop made before it reaches input `i` of
      output `o`, in the order `process_matrix` makes them. Each pass starts
      from a fresh copy of the untouched output. */
  function Visits(matrix: seq<Link>, inputs: seq<Buffer>, outputs: seq<Buffer>, o: nat, i: nat, t: Trig): (vs: seq<Visit>)
    requires |matrix| == |inputs| * |outputs| && o <= |outputs| && i <= |inputs|
    requires o == |outputs| ==> i == 0
    ensures |vs| <= o * |inputs| + i
    decreases o, i
  {
    if i == 0 then
      if o == 0 then [] else
      assert (o - 1) * |inputs| + |inputs| == o * |inputs|;
      Visits(matrix, inputs, outputs, o - 1, |inputs|, t)
    else
      var link := LinkAt(matrix, |inputs|, |outputs|, o, i - 1);
      var earlier := Visits(matrix, inputs, outputs, o, i - 1, t);
      if Passes(link) then earlier + [Visit(o, i - 1, Combine(outputs[o], inputs[i - 1], link.property, t))]
      else earlier
  }

  /** Each pass is of an unfiltered link, made between the output and the
      input that link connects, and leaves in its copy the combination of
      that input with the original output. */
  lemma {:induction false} VisitsAreUnfiltered(
    matrix: seq<Link>, inputs: seq<Buffer>, outputs: seq<Buffer>, o: nat, i: nat, t: Trig)
    requires |matrix| == |inputs| * |outputs| && o <= |outputs| && i <= |inputs|
    requires o == |outputs| ==> i == 0
    ensures forall v :: v in Visits(matrix, inputs, outputs, o, i, t) ==>
      v.output < |outputs| && v.input < |inputs| && Before(v.output, v.input, o, i)
      && Passes(LinkAt(matrix, |inputs|, |outputs|, v.output, v.input))
      && v.copy == Combine(outputs[v.output], inputs[v.input], LinkAt(matrix, |inputs|, |outputs|, v.output, v.input).property, t)
  {
    if i == 0 {
      if o > 0 {
        VisitsAreUnfiltered(matrix, inputs, outputs, o - 1, |inputs|, t);
      }
    } else {
      VisitsAreUnfiltered(matrix, inputs, outputs, o, i - 1, t);
    }
  }

  /** A pass is made for every link that gets through the filter. */
  lemma {:induction false} VisitsCoverUnfiltered(
    matrix: seq<Link>, inputs: seq<Buffer>, outputs: seq<Buffer>, o: nat, i: nat, t: Trig)
    requires |matrix| == |inputs| * |outputs| && o <= |outputs| && i <= |inputs|
    requires o == |outputs| ==> i == 0
    ensures forall o2, i2 ::
      (0 <= o2 < |outputs| && 0 <= i2 < |inputs| && Before(o2, i2, o, i)
       && Passes(LinkAt(matrix, |inputs|, |outputs|, o2, i2))) ==>
      exists v :: v in Visits(matrix, inputs, outputs, o, i, t) && v.output == o2 && v.input == i2
  {
    var n := |inputs|;
    var vs := Visits(matrix, inputs, outputs, o, i, t);
    if i == 0 {
      if o > 0 {
        VisitsCoverUnfiltered(matrix, inputs, outputs, o - 1, n, t);
        assert vs == Visits(matrix, inputs, outputs, o - 1, n, t);
        forall o2, i2 | 0 <= o2 < |outputs| && 0 <= i2 < n && Before(o2, i2, o, i)
          ensures Before(o2, i2, o - 1, n)
        {
        }
      }
    } else {
      VisitsCoverUnfiltered(matrix, inputs, outputs, o, i - 1, t);
      var link := LinkAt(matrix, n, |outputs|, o, i - 1);
      var earlier := Visits(matrix, inputs, outputs, o, i - 1, t);
      forall o2, i2 | 0 <= o2 < |outputs| && 0 <= i2 < n && Before(o2, i2, o, i)
        && Passes(LinkAt(matrix, n, |outputs|, o2, i2))
        ensures exists v :: v in vs && v.output == o2 && v.input == i2
      {
        if Before(o2, i2, o, i - 1) {
          var w :| w in earlier && w.output == o2 && w.input == i2;
          assert w in vs;
        } else {
          assert o2 == o && i2 == i - 1;
          assert Visit(o, i - 1, Combine(outputs[o], inputs[i - 1], link.property, t)) in vs;
        }
      }
    }
  }

  /** `process_matrix` exactly as written. The arms of the output match bind
      the output's sample arrays by value, so every `+=` and `=` lands in a
      copy that is dropped at the end of the pass: the outputs are never
      written. `visits` records the passes. The `inputs` must not be empty
      when the guard is passed, since chunking by zero panics. */
  method ProcessMatrix(matrix: array<Link>, inputs: array<Buffer>, outputs: array<Buffer>, t: Trig)
    returns (r: Outcome, ghost visits: seq<Visit>)
    requires inputs.Length > 0 || matrix.Length != 0
    modifies outputs
    ensures r == if matrix.Length == inputs.Length * outputs.Length then Ok else Err(DimensionMismatch)
    ensures r.Err? ==> visits == []
    ensures r.Ok? ==> visits == Visits(matrix[..], inputs[..], outputs[..], outputs.Length, 0, t)
    ensures outputs[..] == old(outputs[..])
  {
    var n := inputs.Length;
    if matrix.Length != n * outputs.Length {
      return Err(DimensionMismatch), [];
    }
    visits := [];
    var o := 0;
    while o < outputs.Length
      invariant 0 <= o <= outputs.Length
      invariant outputs[..] == old(outputs[..])
      invariant visits == Visits(matrix[..], inputs[..], outputs[..], o, 0, t)
    {
      var i := 0;
      while i < n
        invariant 0 <= i <= n
        invariant outputs[..] == old(outputs[..])
        invariant visits == Visits(matrix[..], inputs[..], outputs[..], o, i, t)
      {
        LinkIndexInRange(o, i, n, outputs.Length);
        var link := matrix[o * n + i];
        if Passes(link) {
          var copy := Combine(outputs[o], inputs[i], link.property, t);
          visits := visits + [Visit(o, i, copy)];
        }
        i := i + 1;
      }
      o := o + 1;
    }
    r := Ok;
  }

  // ---------------------------------------------------------------------
  // The walk with its writes kept: each link updates the output in turn

  /** An output after the first `j` links of its chunk have each, if they
      get through the filter, combined their input into it. */
  function MixPrefix(out: Buffer, links: seq<Link>, inputs: seq<Buffer>, j: nat, t: Trig): (r: Buffer)
    requires j <= |links| && j <= |inputs|
    ensures Arity(r) == Arity(out)
    decreases j
  {
    if j == 0 then out
    else
      var acc := MixPrefix(out, links, inputs, j - 1, t);
      if Passes(links[j - 1]) then Combine(acc, inputs[j - 1], links[j - 1].property, t) else acc
  }

  /** Every output after its whole chunk of links. */
  function Route(matrix: seq<Link>, inputs: seq<Buffer>, outputs: seq<Buffer>, t: Trig): (r: seq<Buffer>)
    requires |matrix| == |inputs| * |outputs|
    ensures |r| == |outputs|
    ensures forall o :: 0 <= o < |outputs| ==> Arity(r[o]) == Arity(outputs[o])
  {
    seq(|outputs|, o requires 0 <= o < |outputs| =>
      MixPrefix(outputs[o], Chunk(matrix, |inputs|, |outputs|, o), inputs, |inputs|, t))
  }

  /** `process_matrix` with the output arms binding the sample arrays by
      reference, so that every write lands in the output: each output ends
      as its whole chunk of links leaves it, and a rejected matrix leaves
      every output untouched. */
  method ProcessMatrixInPlace(matrix: array<Link>, inputs: array<Buffer>, outputs: array<Buffer>, t: Trig)
    returns (r: Outcome)
    requires inputs.Length > 0 || matrix.Length != 0
    requires inputs != outputs
    modifies outputs
    ensures r == if matrix.Length == inputs.Length * outputs.Length then Ok else Err(DimensionMismatch)
    ensures r.Err? ==> outputs[..] == old(outputs[..])
    ensures r.Ok? ==> outputs[..] == Route(matrix[..], inputs[..], old(outputs[..]), t)
  {
    var n, m := inputs.Length, outputs.Length;
    if matrix.Length != n * m {
      return Err(DimensionMismatch);
    }
    ghost var before := outputs[..];
    ghost var after := Route(matrix[..], inputs[..], before, t);
    var o := 0;
    while o < m
      invariant 0 <= o <= m
      invariant forall q :: 0 <= q < o ==> outputs[q] == after[q]
      invariant forall q :: o <= q < m ==> outputs[q] == before[q]
    {
      ghost var chunk := Chunk(matrix[..], n, m, o);
      var i := 0;
      while i < n
        invariant 0 <= i <= n
        invariant outputs[o] == MixPrefix(before[o], chunk, inputs[..], i, t)
        invariant forall q :: 0 <= q < o ==> outputs[q] == after[q]
        invariant forall q :: o < q < m ==> outputs[q] == before[q]
      {
        LinkIndexInRange(o, i, n, m);
        var link := matrix[o * n + i];
        if Passes(link) {
          outputs[o] := Combine(outputs[o], inputs[i], link.property, t);
        }
        i := i + 1;
      }
      o := o + 1;
    }
    r := Ok;
  }

  // ---------------------------------------------------------------------
  // What a chunk of links does to its output

  /** Links that the filter stops contribute nothing, whatever their gain
      and pan: two chunks that agree on which links pass, and on the
      properties of those that do, mix the same. */
  lemma {:induction false} FilteredLinksContributeNothing(
    out: Buffer, links: seq<Link>, others: seq<Link>, inputs: seq<Buffer>, j: nat, t: Trig)
    requires j <= |links| && j <= |others| && j <= |inputs|
    requires forall i :: 0 <= i < j ==> Passes(links[i]) == Passes(others[i])
    requires forall i :: 0 <= i < j && Passes(links[i]) ==> links[i].property == others[i].property
    ensures MixPrefix(out, links, inputs, j, t) == MixPrefix(out, others, inputs, j, t)
  {
    if j > 0 {
      FilteredLinksContributeNothing(out, links, others, inputs, j - 1, t);
    }
  }

  /** A chunk whose links are all filtered out leaves its output as it was. */
  lemma {:induction false} AllFilteredLeavesOutput(out: Buffer, links: seq<Link>, inputs: seq<Buffer>, j: nat, t: Trig)
    requires j <= |links| && j <= |inputs|
    requires forall i :: 0 <= i < j ==> !Passes(links[i])
    ensures MixPrefix(out, links, inputs, j, t) == out
  {
    if j > 0 {
      AllFilteredLeavesOutput(out, links, inputs, j - 1, t);
    }
  }

  /** When every link that passes accumulates, the chunk adds to its output
      exactly what it would produce from silence. */
  lemma {:induction false} AccumulatingChunkAdds(out: Buffer, links: seq<Link>, inputs: seq<Buffer>, j: nat, t: Trig)
    requires j <= |links| && j <= |inputs|
    requires forall i :: 0 <= i < j && Passes(links[i]) ==> Accumulates(out, inputs[i], links[i].property)
    ensures MixPrefix(out, links, inputs, j, t) == Plus(out, MixPrefix(Silence(out), links, inputs, j, t))
  {
    if j == 0 {
      SilenceIsNeutral(out);
    } else {
      AccumulatingChunkAdds(out, links, inputs, j - 1, t);
      var acc := MixPrefix(out, links, inputs, j - 1, t);
      var quiet := MixPrefix(Silence(out), links, inputs, j - 1, t);
      if Passes(links[j - 1]) {
        var inp, p := inputs[j - 1], links[j - 1].property;
        assert Silence(acc) == Silence(out) && Silence(quiet) == Silence(out);
        CombineAccumulates(acc, inp, p, t);
        CombineAccumulates(quiet, inp, p, t);
        PlusAssociates(out, quiet, Combine(Silence(out), inp, p, t));
      }
    }
  }

  lemma SilenceIsNeutral(b: Buffer)
    ensures Plus(b, Silence(b)) == b
  {
    match b
    case None =>
    case Mono(x) =>
      assert AddChannels(x, Zeros()) == x;
    case Stereo(x, y) =>
      assert AddChannels(x, Zeros()) == x;
      assert AddChannels(y, Zeros()) == y;
  }

  /** The sum, at sample `k`, of `input * gain` over the links among the
      first `j` that pass. */
  function MonoSum(links: seq<Link>, inputs: seq<Buffer>, j: nat, k: nat): real
    requires j <= |links| && j <= |inputs| && k < BUFFER_SIZE
    requires forall i :: 0 <= i < j ==> inputs[i].Mono?
  {
    if j == 0 then 0.0
    else if Passes(links[j - 1]) then MonoSum(links, inputs, j - 1, k) + inputs[j - 1].m[k] * links[j - 1].property.gain
    else MonoSum(links, inputs, j - 1, k)
  }

  /** Mono inputs into a mono output sum: each sample gains the sum of
      `input * gain` over the links that pass. */
  lemma {:induction false} MonoInputsSum(out: Channel, links: seq<Link>, inputs: seq<Buffer>, j: nat, k: nat, t: Trig)
    requires j <= |links| && j <= |inputs| && k < BUFFER_SIZE
    requires forall i :: 0 <= i < j ==> inputs[i].Mono?
    ensures MixPrefix(Mono(out), links, inputs, j, t).m[k] == out[k] + MonoSum(links, inputs, j, k)
  {
    if j > 0 {
      MonoInputsSum(out, links, inputs, j - 1, k, t);
      var acc := MixPrefix(Mono(out), links, inputs, j - 1, t);
      if Passes(links[j - 1]) {
        var x, p := inputs[j - 1].m, links[j - 1].property;
        assert acc == Mono(acc.m) && inputs[j - 1] == Mono(x);
        MonoFromMono(acc.m, x, p, t, k, 0.5);
        assert MixPrefix(Mono(out), links, inputs, j, t) == Combine(acc, Mono(x), p, t);
        assert MonoSum(links, inputs, j, k) == MonoSum(links, inputs, j - 1, k) + x[k] * p.gain;
      }
    }
  }

  /** The last link to pass decides a stereo output on its own when it
      overwrites: every earlier link's contribution is discarded. */
  lemma {:induction false} LastOverwriteWins(out: Buffer, links: seq<Link>, inputs: seq<Buffer>, j: nat, t: Trig)
    requires 0 < j <= |links| && j <= |inputs|
    requires Passes(links[j - 1]) && Overwrites(out, inputs[j - 1], links[j - 1].property)
    ensures MixPrefix(out, links, inputs, j, t) == Combine(Silence(out), inputs[j - 1], links[j - 1].property, t)
  {
    var acc := MixPrefix(out, links, inputs, j - 1, t);
    assert Silence(acc) == Silence(out);
    CombineOverwrites(acc, inputs[j - 1], links[j - 1].property, t);
  }

  // ---------------------------------------------------------------------
  // The two walks compared

  /** The walk as written and the walk with its writes kept, run on one
      mono input `1.0` routed by a default link into one silent mono
      output: the first leaves the output at `0.0`, the second sets it to
      the input, `1.0`. */
  method DroppedWriteOnOneLink(t: Trig) returns (asWritten: Buffer, intended: Buffer)
    ensures asWritten == Mono([0.0])
    ensures intended == Mono([1.0])
  {
    var matrix := new Link[1](_ => DefaultLink());
    var inputs := new Buffer[1](_ => Mono([1.0]));
    var outputs := new Buffer[1](_ => Mono([0.0]));
    var r;
    ghost var visits;
    r, visits := ProcessMatrix(matrix, inputs, outputs, t);
    asWritten := outputs[0];
    var outputs' := new Buffer[1](_ => Mono([0.0]));
    r := ProcessMatrixInPlace(matrix, inputs, outputs', t);
    intended := outputs'[0];
    assert matrix[..] == [DefaultLink()] && inputs[..] == [Mono([1.0])];
    DroppedWriteWitness(t);
  }

  /** One mono input routed by a default link into one silent mono output:
      the walk as written leaves the output silent, while the link's
      contribution (the input itself) is what the output should hold. */
  lemma DroppedWriteWitness(t: Trig)
    ensures var outputs := [Mono([0.0])];
      Route([DefaultLink()], [Mono([1.0])], outputs, t) == [Mono([1.0])]
      && Route([DefaultLink()], [Mono([1.0])], outputs, t) != outputs
  {
    var outputs := [Mono([0.0])];
    var r := Route([DefaultLink()], [Mono([1.0])], outputs, t);
    assert Chunk([DefaultLink()], 1, 1, 0) == [DefaultLink()];
    MonoInputsSum([0.0], [DefaultLink()], [Mono([1.0])], 1, 0, t);
    assert r[0].m[0] == 1.0;
    assert r[0] == Mono([1.0]);
  }
}
