/** The bounded build log of src/compiler.js: a streaming tail that never splits a character,
    and a marker whose own length depends on the number it prints. */
module BuildLog {
  import opened Utf8
  import opened Decimal
  import opened JsText

  const MAX_LOG_BYTES := 16384
  /** Counts are JavaScript numbers, exact up to Number.MAX_SAFE_INTEGER. */
  const MAX_SAFE_INTEGER := 0x1F_FFFF_FFFF_FFFF

  // ---------------------------------------------------------------- tails

  /** The longest suffix of whole characters that fits in `limit` bytes. */
  function Tail(text: string, limit: int): string {
    if text == "" || ByteLength(text) <= limit then text else Tail(text[1..], limit)
  }

  ghost predicate IsLongestFittingSuffix(text: string, limit: int, tail: string) {
    && |tail| <= |text| && tail == text[|text| - |tail|..]
    && (tail == "" || ByteLength(tail) <= limit)
    && forall k: nat :: k <= |text| && ByteLength(text[k..]) <= limit ==> |text| - k <= |tail|
  }

  lemma {:induction false} TailIsLongestFittingSuffix(text: string, limit: int)
    ensures IsLongestFittingSuffix(text, limit, Tail(text, limit))
  {
    hide Encode;
    if text != "" && ByteLength(text) > limit {
      TailIsLongestFittingSuffix(text[1..], limit);
      forall k: nat | k <= |text| && ByteLength(text[k..]) <= limit
        ensures |text| - k <= |Tail(text, limit)|
      {
        assert k > 0 by { assert text[0..] == text; }
        assert text[k..] == text[1..][k - 1..];
      }
    }
  }

  lemma TailBytesMonotone(text: string, lower: int, upper: int)
    requires lower <= upper
    ensures ByteLength(Tail(text, lower)) <= ByteLength(Tail(text, upper))
  {
    TailIsLongestFittingSuffix(text, lower);
    TailIsLongestFittingSuffix(text, upper);
    var j, k := |text| - |Tail(text, upper)|, |text| - |Tail(text, lower)|;
    if Tail(text, lower) != "" && j < k {
      SuffixBytesStrict(text, j, k);
    }
  }

  /** Where the kept bytes start: no character starts between the byte limit and there. */
  lemma {:induction false} TailStartsAtNextCharacter(text: string, limit: int)
    requires limit >= 0
    ensures
      var bytes, tail := Encode(text), Encode(Tail(text, limit));
      && |tail| <= |bytes| && |tail| <= limit
      && bytes[|bytes| - |tail|..] == tail
      && (tail != [] ==> !IsContinuation(tail[0]))
      && forall j :: 0 <= j && |bytes| - limit <= j < |bytes| - |tail| ==> IsContinuation(bytes[j])
  {
    if text != "" && ByteLength(text) > limit {
      TailStartsAtNextCharacter(text[1..], limit);
      var bytes, first, rest := Encode(text), EncodeChar(text[0]), Encode(text[1..]);
      var tail := Encode(Tail(text, limit));
      assert bytes[|bytes| - |tail|..] == rest[|rest| - |tail|..];
      forall j | 0 <= j && |bytes| - limit <= j < |bytes| - |tail|
        ensures IsContinuation(bytes[j])
      {
        if j >= |first| {
          assert bytes[j] == rest[j - |first|];
        }
      }
    }
  }

  method TailWithinBytes(text: string, limit: int) returns (tail: string)
    ensures tail == Tail(text, limit)
  {
    hide Encode;
    var bytes := Encode(text);
    var start := if |bytes| - limit > 0 then |bytes| - limit else 0;
    ghost var kept := Tail(text, limit);
    TailIsLongestFittingSuffix(text, limit);
    if limit >= 0 {
      TailStartsAtNextCharacter(text, limit);
    }
    while start < |bytes| && IsContinuation(bytes[start])
      invariant limit >= 0 ==> 0 <= |bytes| - limit <= start <= |bytes| - ByteLength(kept) || start == |bytes| - ByteLength(kept) == 0
      invariant limit < 0 ==> start > |bytes|
    {
      start := start + 1;
    }
    // Buffer.subarray clamps a start past the end.
    var slice := if start <= |bytes| then bytes[start..] else [];
    DecodeIsInverseOfEncode(kept, slice);
    tail := Decode(slice).value;
  }

  /** Cutting as the output arrives loses nothing a cut at the end would have kept. */
  lemma {:induction false} TailAfterTail(a: string, b: string, limit: int)
    ensures Tail(Tail(a, limit) + b, limit) == Tail(a + b, limit)
  {
    hide Encode;
    if a != "" && ByteLength(a) > limit {
      assert ByteLength(a + b) > limit by { EncodeAppend(a, b); }
      calc {
        Tail(Tail(a, limit) + b, limit);
        Tail(Tail(a[1..], limit) + b, limit);
        { TailAfterTail(a[1..], b, limit); }
        Tail(a[1..] + b, limit);
        { assert (a + b)[1..] == a[1..] + b; }
        Tail(a + b, limit);
      }
    }
  }

  // --------------------------------------------------------------- marker

  function Marker(cut: nat): string {
    "\U{2026} (" + Numeral(cut) + " bytes cut) "
  }

  lemma {:induction false} AsciiBytes(s: string)
    requires forall i :: 0 <= i < |s| ==> s[i] < '\U{80}'
    ensures ByteLength(s) == |s|
  {
    if s != "" {
      AsciiBytes(s[1..]);
    }
  }

  lemma MarkerBytes(cut: nat)
    ensures ByteLength(Marker(cut)) == 17 + |Numeral(cut)|
  {
    MarkerPartsBytes("\U{2026}", " (", Numeral(cut), " bytes cut) ");
    assert "\U{2026} (" == "\U{2026}" + " (";
    assert Encode("\U{2026}"[1..]) == [];
  }

  lemma MarkerPartsBytes(dots: string, open: string, digits: string, end: string)
    requires |dots| == 1
    requires forall s, i :: s in {open, digits, end} && 0 <= i < |s| ==> s[i] < '\U{80}'
    ensures ByteLength(dots + open + digits + end) == |EncodeChar(dots[0])| + |open| + |digits| + |end|
  {
    EncodeAppend(dots + open + digits, end);
    EncodeAppend(dots + open, digits);
    EncodeAppend(dots, open);
    AsciiBytes(open);
    AsciiBytes(digits);
    AsciiBytes(end);
    assert Encode(dots) == EncodeChar(dots[0]) + Encode(dots[1..]);
  }

  lemma MarkerFits(cut: nat)
    requires cut <= MAX_SAFE_INTEGER
    ensures ByteLength(Marker(cut)) <= 33
  {
    MarkerBytes(cut);
    assert Pow10(16) == 1_0000_0000_0000_0000 by { Pow10Sum(8, 8); assert Pow10(8) == 1_0000_0000; }
    NumeralLengthBound(cut, 16);
  }

  // --------------------------------------------------------------- capLog

  /** Bytes missing from the output when only `text[k..]` of it is shown. */
  function Removed(text: string, dropped: nat, k: nat): nat
    requires k <= |text|
  {
    SuffixBytes(text, k);
    dropped + ByteLength(text) - ByteLength(text[k..])
  }

  /** A marker that states the bytes really missing, with a tail that still fits beside it. */
  predicate IsConsistentCut(text: string, dropped: nat, k: nat) {
    && k <= |text|
    && ByteLength(Marker(Removed(text, dropped, k)) + text[k..]) <= MAX_LOG_BYTES
  }

  /** The log shows the longest tail any truthful marker leaves room for. */
  ghost predicate IsCapped(text: string, dropped: nat, log: string) {
    exists k: nat ::
      && IsConsistentCut(text, dropped, k)
      && log == Marker(Removed(text, dropped, k)) + text[k..]
      && forall j: nat :: IsConsistentCut(text, dropped, j) ==> k <= j
  }

  /** The tail length the loop body of capLog measures for a printed count. */
  function CutFor(text: string, dropped: nat, truncated: nat): int {
    dropped + ByteLength(text) - ByteLength(Tail(text, MAX_LOG_BYTES - ByteLength(Marker(truncated))))
  }

  lemma MarkerBytesMonotone(m: nat, n: nat)
    requires m <= n
    ensures ByteLength(Marker(m)) <= ByteLength(Marker(n))
  {
    MarkerBytes(m);
    MarkerBytes(n);
    NumeralLengthMonotone(m, n);
  }

  lemma CutForMonotone(text: string, dropped: nat, m: nat, n: nat)
    requires m <= n
    ensures CutFor(text, dropped, m) <= CutFor(text, dropped, n)
  {
    hide Encode;
    MarkerBytesMonotone(m, n);
    TailBytesMonotone(text, MAX_LOG_BYTES - ByteLength(Marker(n)), MAX_LOG_BYTES - ByteLength(Marker(m)));
  }

  lemma CutForBounds(text: string, dropped: nat, truncated: nat)
    ensures dropped <= CutFor(text, dropped, truncated) <= dropped + ByteLength(text)
  {
    hide Encode;
    var limit := MAX_LOG_BYTES - ByteLength(Marker(truncated));
    TailIsLongestFittingSuffix(text, limit);
    SuffixBytes(text, |text| - |Tail(text, limit)|);
  }

  /** No truthful cut is smaller than what the loop computes from a smaller count. */
  lemma ConsistentCutsLieAbove(text: string, dropped: nat, truncated: nat, k: nat)
    requires IsConsistentCut(text, dropped, k) && truncated <= Removed(text, dropped, k)
    ensures CutFor(text, dropped, truncated) <= Removed(text, dropped, k)
  {
    hide Encode;
    var removed := Removed(text, dropped, k);
    var limit := MAX_LOG_BYTES - ByteLength(Marker(truncated));
    var tail := Tail(text, limit);
    MarkerBytesMonotone(truncated, removed);
    EncodeAppend(Marker(removed), text[k..]);
    TailIsLongestFittingSuffix(text, limit);
    if |text| - |tail| < k {
      SuffixBytesStrict(text, |text| - |tail|, k);
    }
  }

  method CapLog(text: string, dropped: nat) returns (log: string)
    requires dropped + ByteLength(text) <= 9_007_199_254_740_991
    ensures ByteLength(log) <= 16384
    ensures dropped == 0 && ByteLength(text) <= 16384 ==> log == text
    ensures dropped != 0 || ByteLength(text) > 16384 ==> IsCapped(text, dropped, log)
  {
    hide Encode;
    var bytes := ByteLength(text);
    if dropped == 0 && bytes <= MAX_LOG_BYTES {
      return text;
    }
    var truncated := dropped;
    CutForBounds(text, dropped, truncated);
    forall k: nat | IsConsistentCut(text, dropped, k) ensures truncated <= Removed(text, dropped, k) {
      SuffixBytes(text, k);
    }
    while true
      invariant dropped <= truncated <= dropped + bytes
      invariant truncated <= CutFor(text, dropped, truncated)
      invariant forall k: nat :: IsConsistentCut(text, dropped, k) ==> truncated <= Removed(text, dropped, k)
      decreases dropped + bytes - truncated
    {
      var marker := Marker(truncated);
      var tail := TailWithinBytes(text, MAX_LOG_BYTES - ByteLength(marker));
      var cut := dropped + bytes - ByteLength(tail);
      CutForBounds(text, dropped, truncated);
      if cut == truncated {
        ghost var k := |text| - |tail|;
        TailIsLongestFittingSuffix(text, MAX_LOG_BYTES - ByteLength(marker));
        FixedPointIsConsistent(text, dropped, truncated, k);
        LeastCutIsCapped(text, dropped, k);
        return marker + tail;
      }
      CutForMonotone(text, dropped, truncated, cut);
      forall k: nat | IsConsistentCut(text, dropped, k) ensures cut <= Removed(text, dropped, k) {
        ConsistentCutsLieAbove(text, dropped, truncated, k);
      }
      truncated := cut;
    }
  }

  /** A count the loop body reproduces is truthful, and its tail fits beside its marker. */
  lemma FixedPointIsConsistent(text: string, dropped: nat, truncated: nat, k: nat)
    requires truncated <= MAX_SAFE_INTEGER
    requires k <= |text| && Removed(text, dropped, k) == truncated
    requires text[k..] == "" || ByteLength(text[k..]) <= MAX_LOG_BYTES - ByteLength(Marker(truncated))
    ensures IsConsistentCut(text, dropped, k)
  {
    MarkerFits(truncated);
    EncodeAppend(Marker(truncated), text[k..]);
  }

  /** A truthful cut below every truthful cut is the least of them. */
  lemma LeastCutIsCapped(text: string, dropped: nat, k: nat)
    requires IsConsistentCut(text, dropped, k)
    requires forall j: nat :: IsConsistentCut(text, dropped, j) ==> Removed(text, dropped, k) <= Removed(text, dropped, j)
    ensures IsCapped(text, dropped, Marker(Removed(text, dropped, k)) + text[k..])
  {
    hide Encode;
    forall j: nat | IsConsistentCut(text, dropped, j) ensures k <= j {
      if j < k {
        SuffixBytesStrict(text, j, k);
      }
    }
  }

  /** The contract of CapLog leaves one log, and its printed number is the bytes not shown. */
  lemma CappedLogIsUnique(text: string, dropped: nat, log: string, other: string)
    requires IsCapped(text, dropped, log) && IsCapped(text, dropped, other)
    ensures log == other && ByteLength(log) <= 16384
    ensures exists k: nat, n: nat ::
              && k <= |text| && n == dropped + ByteLength(text) - ByteLength(text[k..])
              && log == "\U{2026} (" + Numeral(n) + " bytes cut) " + text[k..] && Parse(Numeral(n)) == n
  {
    hide Encode;
    var k: nat :| IsConsistentCut(text, dropped, k)
                  && log == Marker(Removed(text, dropped, k)) + text[k..]
                  && forall j: nat :: IsConsistentCut(text, dropped, j) ==> k <= j;
    ParseNumeral(Removed(text, dropped, k));
  }

  // ------------------------------------------------------------ streaming

  function Concat(chunks: seq<string>): string {
    if chunks == [] then "" else Concat(chunks[..|chunks| - 1]) + chunks[|chunks| - 1]
  }

  /** One stream after its `data` events, each cut back to the limit as it arrives. */
  function Streamed(chunks: seq<string>): string {
    if chunks == [] then ""
    else Tail(Streamed(chunks[..|chunks| - 1]) + chunks[|chunks| - 1], MAX_LOG_BYTES)
  }

  lemma {:induction false} StreamingEqualsBatch(chunks: seq<string>)
    ensures Streamed(chunks) == Tail(Concat(chunks), MAX_LOG_BYTES)
  {
    hide Encode;
    if chunks != [] {
      var before := chunks[..|chunks| - 1];
      StreamingEqualsBatch(before);
      TailAfterTail(Concat(before), chunks[|chunks| - 1], MAX_LOG_BYTES);
    }
  }

  lemma {:induction false} TrimBytes(s: string)
    ensures ByteLength(Trim(s)) <= ByteLength(s)
  {
    if s != "" {
      if IsWhiteSpace(s[0]) {
        TrimBytes(s[1..]);
      } else if IsWhiteSpace(s[|s| - 1]) {
        TrimBytes(s[..|s| - 1]);
        SuffixBytes(s, |s| - 1);
      }
    }
  }

  function Joined(out: string, err: string): string {
    out + if err == "" then "" else "\n" + err
  }

  lemma JoinedBytes(out: string, err: string)
    ensures ByteLength(Joined(out, err)) == ByteLength(out) + ByteLength(err) + if err == "" then 0 else 1
  {
    EncodeAppend(out, if err == "" then "" else "\n" + err);
    EncodeAppend("\n", err);
    AsciiBytes("\n");
  }

  /** The state compileProject keeps while the compiler runs. */
  class BuildOutput {
    var stdout: string
    var stderr: string
    var dropped: nat
    ghost var receivedOut: string
    ghost var receivedErr: string

    ghost predicate Valid()
      reads this
    {
      && stdout == Tail(receivedOut, MAX_LOG_BYTES)
      && stderr == Tail(receivedErr, MAX_LOG_BYTES)
      && dropped + ByteLength(stdout) + ByteLength(stderr) == ByteLength(receivedOut) + ByteLength(receivedErr)
    }

    constructor ()
      ensures Valid() && receivedOut == receivedErr == ""
    {
      stdout, stderr, dropped, receivedOut, receivedErr := "", "", 0, "", "";
    }

    method Append(current: string, chunk: string) returns (next: string)
      modifies this`dropped
      ensures next == Tail(current + chunk, MAX_LOG_BYTES)
      ensures dropped + ByteLength(next) == old(dropped) + ByteLength(current + chunk)
    {
      hide Encode;
      next := current + chunk;
      var bytes := ByteLength(next);
      if bytes <= MAX_LOG_BYTES {
        return;
      }
      TailIsLongestFittingSuffix(next, MAX_LOG_BYTES);
      SuffixBytes(next, |next| - |Tail(next, MAX_LOG_BYTES)|);
      var tail := TailWithinBytes(next, MAX_LOG_BYTES);
      dropped := dropped + (bytes - ByteLength(tail));
      next := tail;
    }

    method OnStdout(chunk: string)
      requires Valid()
      modifies this
      ensures Valid() && receivedOut == old(receivedOut) + chunk && receivedErr == old(receivedErr)
    {
      hide Encode;
      EncodeAppend(stdout, chunk);
      EncodeAppend(receivedOut, chunk);
      TailAfterTail(receivedOut, chunk, MAX_LOG_BYTES);
      stdout := Append(stdout, chunk);
      receivedOut := receivedOut + chunk;
    }

    method OnStderr(chunk: string)
      requires Valid()
      modifies this
      ensures Valid() && receivedErr == old(receivedErr) + chunk && receivedOut == old(receivedOut)
    {
      hide Encode;
      EncodeAppend(stderr, chunk);
      EncodeAppend(receivedErr, chunk);
      TailAfterTail(receivedErr, chunk, MAX_LOG_BYTES);
      stderr := Append(stderr, chunk);
      receivedErr := receivedErr + chunk;
    }

    /** The log of a finished build: what is kept of stdout, then a line break and what is kept of
        stderr if anything came there, trimmed and capped. The marker counts what arrived and is not shown, plus the
        line break between the streams, minus the white space trimmed off. */
    method Log() returns (log: string)
      requires Valid() && ByteLength(receivedOut) + ByteLength(receivedErr) < 9_007_199_254_740_991
      ensures ByteLength(log) <= 16384
      ensures
        var kept := Tail(receivedOut, 16384) + if receivedErr == "" then "" else "\n" + Tail(receivedErr, 16384);
        var total := ByteLength(receivedOut) + ByteLength(receivedErr) + if receivedErr == "" then 0 else 1;
        && total >= ByteLength(kept)
        && if total == ByteLength(kept) && ByteLength(Trim(kept)) <= 16384
           then log == Trim(kept)
           else IsCapped(Trim(kept), total - ByteLength(kept), log)
    {
      hide Encode;
      JoinedBytes(stdout, stderr);
      TailIsLongestFittingSuffix(receivedErr, MAX_LOG_BYTES);
      LastCharacterFits(receivedErr);
      var text := Trim(Joined(stdout, stderr));
      TrimBytes(Joined(stdout, stderr));
      log := CapLog(text, dropped);
    }
  }

  /** A stream that received anything keeps something, so stderr is empty only if nothing came. */
  lemma LastCharacterFits(text: string)
    ensures Tail(text, MAX_LOG_BYTES) == "" <==> text == ""
  {
    TailIsLongestFittingSuffix(text, MAX_LOG_BYTES);
    if text != "" {
      var last := text[|text| - 1..];
      assert Encode(last) == EncodeChar(last[0]) + Encode(last[1..]);
      assert Encode(last[1..]) == [];
    }
  }
}
