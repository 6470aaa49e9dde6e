/**
 The parameter store of the tanh waveshaper.

 The store holds three values — input gain, saturation ceiling and dry/wet
 mix — addressed by a 0-based index. The host reads and writes them one at a
 time; every index outside 0..2 is a contract violation by the host, so every
 accessor here requires a valid index. Samples and parameter values are
 modelled as reals (no 32-bit float rounding).
 */
module Parameters {

  /** Number of parameters the plugin declares to its host. */
  const ParamCount: int := 3

  const GainIndex: int := 0
  const CeilingIndex: int := 1
  const MixIndex: int := 2

  /** The indices the host may use. */
  predicate ValidIndex(i: int) {
    0 <= i < ParamCount
  }

  /** The three stored values, one field per parameter. */
  datatype Params = Params(gain: real, ceiling: real, mix: real)

  /** The store as created at plugin instantiation: every parameter is 1.0. */
  function Default(): (d: Params)
    ensures forall i :: ValidIndex(i) ==> Get(d, i) == 1.0
  {
    Params(1.0, 1.0, 1.0)
  }

  /** Reads the value stored for parameter `i`. */
  function Get(s: Params, i: int): (v: real)
    requires ValidIndex(i)
  {
    if i == GainIndex then s.gain
    else if i == CeilingIndex then s.ceiling
    else s.mix
  }

  /** Stores `v` for parameter `i`: no range check, no clamping, and no
      other parameter is touched. */
  function Set(s: Params, i: int, v: real): (t: Params)
    requires ValidIndex(i)
    ensures Get(t, i) == v
    ensures forall j :: ValidIndex(j) && j != i ==> Get(t, j) == Get(s, j)
  {
    if i == GainIndex then s.(gain := v)
    else if i == CeilingIndex then s.(ceiling := v)
    else s.(mix := v)
  }

  /** Display name of parameter `i`. */
  function Name(i: int): (name: string)
    requires ValidIndex(i)
  {
    if i == GainIndex then "Gain"
    else if i == CeilingIndex then "Ceiling"
    else "Dry/Wet"
  }

  /** Unit label of parameter `i`: only the mix carries a unit. */
  function Label(i: int): (unit: string)
    requires ValidIndex(i)
    ensures unit == "%" <==> i == MixIndex
    ensures unit != "%" ==> unit == ""
  {
    if i == GainIndex then ""
    else if i == CeilingIndex then ""
    else "%"
  }

  /** Whether the host may automate parameter `i`. The source accepts any
      index here, not only valid ones. */
  function CanBeAutomated(i: int): (automatable: bool)
    ensures automatable
  {
    true
  }

  /** Two stores that agree on every valid index are the same store: the
      index interface observes all of the state. */
  lemma StoreDeterminedByReads(a: Params, b: Params)
    requires forall i :: ValidIndex(i) ==> Get(a, i) == Get(b, i)
    ensures a == b
  {
    assert Get(a, GainIndex) == Get(b, GainIndex);
    assert Get(a, CeilingIndex) == Get(b, CeilingIndex);
    assert Get(a, MixIndex) == Get(b, MixIndex);
  }

  /** Writing back the value just read changes nothing. */
  lemma SetOfGetIsIdentity(s: Params, i: int)
    requires ValidIndex(i)
    ensures Set(s, i, Get(s, i)) == s
  {
  }

  /** A second write to the same index overrides the first. */
  lemma LastWriteWins(s: Params, i: int, v: real, w: real)
    requires ValidIndex(i)
    ensures Set(Set(s, i, v), i, w) == Set(s, i, w)
  {
  }

  /** Writes to different indices commute. */
  lemma WritesCommute(s: Params, i: int, v: real, j: int, w: real)
    requires ValidIndex(i) && ValidIndex(j) && i != j
    ensures Set(Set(s, i, v), j, w) == Set(Set(s, j, w), i, v)
  {
  }

  /** No two parameters share a display name. */
  lemma NamesIdentifyParameters(i: int, j: int)
    requires ValidIndex(i) && ValidIndex(j)
    ensures Name(i) == Name(j) <==> i == j
  {
  }

  /** Index by index, the names are "Gain", "Ceiling" and "Dry/Wet"; so the
      names the valid indices carry are exactly those three. */
  lemma NamesAreTable()
    ensures Name(GainIndex) == "Gain"
    ensures Name(CeilingIndex) == "Ceiling"
    ensures Name(MixIndex) == "Dry/Wet"
    ensures (set i | 0 <= i < ParamCount :: Name(i)) == {"Gain", "Ceiling", "Dry/Wet"}
  {
  }

  /** The declared parameter count is exactly the number of distinct names
      the valid indices carry. */
  lemma NameCountMatchesParamCount()
    ensures |set i | 0 <= i < ParamCount :: Name(i)| == ParamCount
  {
    NamesAreTable();
    assert "Gain" != "Ceiling" by { assert "Gain"[0] != "Ceiling"[0]; }
    assert "Gain" != "Dry/Wet" by { assert "Gain"[0] != "Dry/Wet"[0]; }
    assert "Ceiling" != "Dry/Wet" by { assert "Ceiling"[0] != "Dry/Wet"[0]; }
  }

  /** One write from the host: an index and the value stored there. */
  datatype Write = Write(index: int, value: real)

  predicate ValidWrites(ws: seq<Write>) {
    forall k :: 0 <= k < |ws| ==> ValidIndex(ws[k].index)
  }

  /** The store after the host's writes `ws`, applied in order to `s`. */
  function ApplyWrites(s: Params, ws: seq<Write>): (t: Params)
    requires ValidWrites(ws)
    decreases |ws|
  {
    if |ws| == 0 then s
    else ApplyWrites(Set(s, ws[0].index, ws[0].value), ws[1..])
  }

  /** The value most recently written to index `i` in `ws`, or `prior` when
      `ws` never writes to `i`. */
  function LastWrittenOr(ws: seq<Write>, i: int, prior: real): (v: real) {
    if |ws| == 0 then prior
    else if ws[|ws| - 1].index == i then ws[|ws| - 1].value
    else LastWrittenOr(ws[..|ws| - 1], i, prior)
  }

  /** Applying one more write after a sequence of writes. */
  lemma ApplyWritesSnoc(s: Params, ws: seq<Write>, x: Write)
    requires ValidWrites(ws) && ValidIndex(x.index)
    ensures ValidWrites(ws + [x])
    ensures ApplyWrites(s, ws + [x]) == Set(ApplyWrites(s, ws), x.index, x.value)
    decreases |ws|
  {
    if |ws| > 0 {
      assert (ws + [x])[1..] == ws[1..] + [x];
      ApplyWritesSnoc(Set(s, ws[0].index, ws[0].value), ws[1..], x);
    }
  }

  /** Read-after-writes consistency: after any sequence of host writes, a
      read of index `i` sees the last value written there, or the value the
      store held before when `i` was never written. */
  lemma {:induction false} ReadSeesLastWrite(s: Params, ws: seq<Write>, i: int)
    requires ValidWrites(ws) && ValidIndex(i)
    ensures Get(ApplyWrites(s, ws), i) == LastWrittenOr(ws, i, Get(s, i))
    decreases |ws|
  {
    if |ws| > 0 {
      var init := ws[..|ws| - 1];
      var x := ws[|ws| - 1];
      assert ws == init + [x];
      ApplyWritesSnoc(s, init, x);
      ReadSeesLastWrite(s, init, i);
    }
  }

  /** A freshly created store that the host has written to reads, at each
      index, the last value written there or the default 1.0. */
  lemma FreshStoreReads(ws: seq<Write>, i: int)
    requires ValidWrites(ws) && ValidIndex(i)
    ensures Get(ApplyWrites(Default(), ws), i) == LastWrittenOr(ws, i, 1.0)
  {
    ReadSeesLastWrite(Default(), ws, i);
  }
}
