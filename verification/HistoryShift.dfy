/** The frontend's history shift, which moves `count - 1` bytes where it meant `count - 1` signed-16 words. */
module HistoryShift {
  import opened Machine
  import opened Convolution

  type byte = x: int | 0 <= x < 256

  function Low(word: i16): byte {
    word % 256
  }

  function High(word: i16): byte {
    word / 256 % 256
  }

  /** A little-endian signed-16 word. */
  function Word(low: byte, high: byte): i16 {
    if high < 128 then 256 * high + low else 256 * (high - 256) + low
  }

  lemma WordOfBytes(word: i16)
    ensures Word(Low(word), High(word)) == word
  {
  }

  /** The low byte comes first, and the top half of the words is negative. */
  lemma WordIsLittleEndian(low: byte, high: byte)
    ensures (Word(low, high) - (low + 256 * high)) % 0x1_0000 == 0 && (Word(low, high) < 0 <==> high >= 128)
    ensures Low(Word(low, high)) == low && High(Word(low, high)) == high
  {
    BytesOfWord(low, high);
  }

  lemma BytesOfWord(low: byte, high: byte)
    ensures Low(Word(low, high)) == low && High(Word(low, high)) == high
  {
  }

  function Words(memory: seq<byte>): (words: seq<i16>)
    ensures |words| == |memory| / 2
  {
    seq(|memory| / 2, i requires 0 <= i < |memory| / 2 => Word(memory[2 * i], memory[2 * i + 1]))
  }

  /** What the byte move means for words: half the table shifts, and an even table tears one word at the edge. */
  function Shifted(words: seq<i16>): (shifted: seq<i16>)
    ensures |shifted| == |words|
  {
    seq(|words|, i requires 0 <= i < |words| =>
      if i == 0 then words[0]
      else if 2 * i < |words| then words[i - 1]
      else if 2 * i == |words| then Word(Low(words[i - 1]), High(words[i]))
      else words[i])
  }

  function Push(words: seq<i16>, word: i16): (pushed: seq<i16>)
    requires words != []
    ensures |pushed| == |words|
  {
    Shifted(words)[0 := word]
  }

  /** The table after a whole stream, from any starting contents. */
  function History(start: seq<i16>, stream: seq<i16>): (history: seq<i16>)
    ensures |history| == |start|
  {
    seq(|start|, i requires 0 <= i < |start| =>
      if 2 * i < |start| then Recent(start, stream, i)
      else if 2 * i == |start| then Word(Low(Recent(start, stream, i)), High(start[i]))
      else start[i])
  }

  lemma HistoryAtRest(start: seq<i16>)
    ensures History(start, []) == start
  {
    if |start| > 0 && |start| % 2 == 0 {
      WordOfBytes(start[|start| / 2]);
    }
  }

  /**
   Sample by sample, the shift keeps the first half of the table equal to the newest samples in order; in an even
   table the word after them takes only low bytes from the stream; and the rest never changes.
   */
  lemma HistoryAdvances(start: seq<i16>, stream: seq<i16>, word: i16)
    requires start != []
    ensures Push(History(start, stream), word) == History(start, stream + [word])
  {
    var history, next := History(start, stream), stream + [word];
    forall i | 0 <= i < |start|
      ensures Push(history, word)[i] == History(start, next)[i]
    {
      if 0 < i {
        assert Recent(start, next, i) == Recent(start, stream, i - 1);
        if 2 * i == |start| {
          BytesOfWord(Low(Recent(start, stream, i)), High(start[i]));
        }
      }
    }
  }

  lemma {:induction false} HistorySplits(start: seq<i16>, a: seq<i16>, b: seq<i16>)
    ensures History(History(start, a), b) == History(start, a + b)
  {
    hide History, Push;
    if b == [] {
      HistoryAtRest(History(start, a));
      assert a + b == a;
    } else if start != [] {
      var before, word := b[..|b| - 1], b[|b| - 1];
      HistorySplits(start, a, before);
      HistoryAdvances(History(start, a), before, word);
      HistoryAdvances(start, a + before, word);
      assert before + [word] == b && (a + before) + [word] == a + b;
    }
  }

  /** However long the table, it remembers at most half a table plus one sample. */
  lemma HistoryForgets(start: seq<i16>, stream: seq<i16>, other: seq<i16>)
    requires |start| / 2 + 1 <= |stream| && |start| / 2 + 1 <= |other|
    requires stream[|stream| - (|start| / 2 + 1)..] == other[|other| - (|start| / 2 + 1)..]
    ensures History(start, stream) == History(start, other)
  {
    var window := |start| / 2 + 1;
    forall i | 0 <= i < window && i < |start|
      ensures Recent(start, stream, i) == Recent(start, other, i)
    {
      assert stream[|stream| - 1 - i] == stream[|stream| - window..][window - 1 - i];
      assert other[|other| - 1 - i] == other[|other| - window..][window - 1 - i];
    }
  }

  predicate Silent(words: seq<i16>) {
    forall i :: 0 <= i < |words| ==> words[i] == 0
  }

  /** The one product that a torn middle word adds to a filter long enough to reach it. */
  function TornProduct(coefficients: seq<i16>, start: seq<i16>, stream: seq<i16>, taps: nat): int
    requires taps <= |coefficients| && taps <= |start|
  {
    var middle := |start| / 2;
    if |start| % 2 == 0 && middle < taps then Product(coefficients[middle], Low(Recent(start, stream, middle))) else 0
  }

  /**
   From a silent table of n words a filter of any length is a direct convolution with its first ceil(n/2) coefficients
   at most, plus, when n is even and the filter reaches the middle word, one coefficient applied to an unsigned low
   byte. The remaining coefficients are never used.
   */
  lemma {:induction false} HalfConvolution(coefficients: seq<i16>, start: seq<i16>, stream: seq<i16>, taps: nat)
    requires taps <= |coefficients| && taps <= |start| && Silent(start)
    ensures Dot(coefficients, History(start, stream), taps) ==
            Convolve(coefficients, start, stream, Min(taps, (|start| + 1) / 2))
            + TornProduct(coefficients, start, stream, taps)
  {
    if taps > 0 {
      HalfConvolution(coefficients, start, stream, taps - 1);
      if |start| < 2 * taps - 2 {
        assert History(start, stream)[taps - 1] == 0;
      }
    }
  }

  /** The overlapping byte move itself, from the far end, and what it means for the words. */
  method LegacyHistoryShift(history: array<byte>)
    requires history.Length % 2 == 0 && history.Length > 0
    modifies history
    ensures Words(history[..]) == Shifted(old(Words(history[..])))
  {
    var count := history.Length / 2;
    if count > 1 {
      var j := count;
      while j > 1
        invariant 1 <= j <= count
        invariant forall k :: 0 <= k < history.Length ==>
          history[k] == if j < k <= count then old(history[k - 2]) else old(history[k])
      {
        history[j] := history[j - 2];
        j := j - 1;
      }
      ghost var words := old(Words(history[..]));
      forall i | 0 <= i < count
        ensures Words(history[..])[i] == Shifted(words)[i]
      {
        if 0 < i && 2 * i == count {
          BytesOfWord(old(history[2 * i - 2]), old(history[2 * i - 1]));
          BytesOfWord(old(history[2 * i]), old(history[2 * i + 1]));
        }
      }
    }
  }

  /** Shift, then write the newest sample in front. */
  method ShiftIn(history: array<byte>, word: i16)
    requires history.Length % 2 == 0 && history.Length > 0
    modifies history
    ensures Words(history[..]) == Push(old(Words(history[..])), word)
  {
    LegacyHistoryShift(history);
    ghost var shifted := Words(history[..]);
    history[0] := Low(word);
    history[1] := High(word);
    WordOfBytes(word);
    assert Words(history[..]) == shifted[0 := word];
  }
}
