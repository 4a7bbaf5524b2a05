/**
 * The text chunker of `src/lib/chunkText.ts`: a loop that cuts a text into windows of
 * `size` characters whose starts are `size - overlap` apart, so that neighbouring windows
 * share up to `overlap` characters. No component calls it; the document mode cuts its
 * context by plain slicing instead.
 */
module Chunking {
  import opened JsString

  const DEFAULT_SIZE := 1200
  const DEFAULT_OVERLAP := 200

  /** Number of windows for a text of length `n` when starts are `step` apart: ceil(n / step). */
  function CeilDiv(n: nat, step: nat): nat
    requires step > 0
  {
    (n + step - 1) / step
  }

  /** The window the loop pushes when `start` has the given value: `text.slice(start, start + size)`. */
  function Window(text: string, size: nat, start: nat): string
  {
    Slice(text, start, start + size)
  }

  /** Reference definition: the windows whose starts are `start`, `start + step`, ... below `|text|`. */
  function WindowsFrom(text: string, size: nat, step: nat, start: nat): seq<string>
    requires step > 0
    decreases if start < |text| then |text| - start else 0
  {
    if start < |text| then [Window(text, size, start)] + WindowsFrom(text, size, step, start + step)
    else []
  }

  /** What `chunkText(text, size, overlap)` returns, for parameters with which it terminates. */
  function Chunks(text: string, size: nat, overlap: nat): seq<string>
    requires overlap < size
  {
    WindowsFrom(text, size, size - overlap, 0)
  }

  /** The loop of `chunkText`. It terminates when `size > overlap` (see `StartNeverAdvances`
      for what happens otherwise); the result is the reference windowing `Chunks`, of
      ceil(|text| / (size - overlap)) chunks (`ChunkAt` gives each one). */
  method ChunkText(text: string, size: int := DEFAULT_SIZE, overlap: int := DEFAULT_OVERLAP)
    returns (chunks: seq<string>)
    requires 0 <= overlap < size
    ensures chunks == Chunks(text, size, overlap)
    ensures |chunks| == CeilDiv(|text|, size - overlap)
  {
    chunks := [];
    var start := 0;
    ghost var step := size - overlap;
    while start < |text|
      invariant 0 <= start
      invariant chunks + WindowsFrom(text, size, step, start) == Chunks(text, size, overlap)
      decreases |text| - start
    {
      var end := start + size;
      assert WindowsFrom(text, size, step, start)
          == [Slice(text, start, end)] + WindowsFrom(text, size, step, start + step);
      chunks := chunks + [Slice(text, start, end)];
      start := start + (size - overlap);
    }
    ChunkCount(text, size, overlap);
  }

  function Min(a: int, b: int): int {
    if a <= b then a else b
  }

  /** The value of `start` after `k` turns of the loop body, each adding `step`. */
  function StartAfter(k: nat, step: int): (start: int)
    ensures step >= 0 ==> start >= 0
  {
    if k == 0 then 0 else StartAfter(k - 1, step) + step
  }

  lemma {:induction false} StartAfterIsProduct(k: nat, step: int)
    ensures StartAfter(k, step) == k * step
  {
    if k > 0 {
      StartAfterIsProduct(k - 1, step);
      assert (k - 1) * step + step == k * step;
    }
  }

  lemma MulMonotone(d: int, a: int, b: int)
    requires d > 0 && a <= b
    ensures d * a <= d * b
  {
  }

  lemma DivUnique(x: int, d: int, q: int, r: int)
    requires d > 0 && 0 <= r < d && x == d * q + r
    ensures x / d == q
  {
    var q', r' := x / d, x % d;
    assert x == d * q' + r';
    if q' > q {
      MulMonotone(d, q + 1, q');
    } else if q' < q {
      MulMonotone(d, q' + 1, q);
    }
  }

  /** One more full step of text adds exactly one window. */
  lemma CeilDivStep(m: nat, step: nat)
    requires step > 0 && m > step
    ensures CeilDiv(m, step) == 1 + CeilDiv(m - step, step)
  {
    var a := m - step + step - 1;
    var q, r := a / step, a % step;
    assert a == step * q + r;
    assert a + step == step * (q + 1) + r;
    DivUnique(a + step, step, q + 1, r);
  }

  /** At most one step of text left: exactly one window. */
  lemma CeilDivLast(m: nat, step: nat)
    requires 0 < m <= step
    ensures CeilDiv(m, step) == 1
  {
  }

  /** Count of the windows from `start` on. */
  lemma {:induction false} WindowsFromCount(text: string, size: nat, step: nat, start: nat)
    requires step > 0
    ensures |WindowsFrom(text, size, step, start)| ==
              (if start < |text| then CeilDiv(|text| - start, step) else 0)
    decreases if start < |text| then |text| - start else 0
  {
    if start < |text| {
      WindowsFromCount(text, size, step, start + step);
      var m := |text| - start;
      if m > step {
        CeilDivStep(m, step);
      } else {
        CeilDivLast(m, step);
      }
    }
  }

  /** Window `i` from `start` on begins `i` steps after `start`. */
  lemma {:induction false} WindowAt(text: string, size: nat, step: nat, start: nat, i: nat)
    requires step > 0
    requires i < |WindowsFrom(text, size, step, start)|
    ensures start + StartAfter(i, step) < |text|
    ensures WindowsFrom(text, size, step, start)[i] ==
              text[start + StartAfter(i, step) .. Min(start + StartAfter(i, step) + size, |text|)]
    decreases i
  {
    var w := WindowsFrom(text, size, step, start);
    assert start < |text| && w == [Window(text, size, start)] + WindowsFrom(text, size, step, start + step);
    if i > 0 {
      WindowAt(text, size, step, start + step, i - 1);
      assert w[i] == WindowsFrom(text, size, step, start + step)[i - 1];
      assert start + StartAfter(i, step) == start + step + StartAfter(i - 1, step);
    }
  }

  /** The number of chunks the source's loop produces: ceil(|text| / (size - overlap)). */
  lemma ChunkCount(text: string, size: nat, overlap: nat)
    requires overlap < size
    ensures |Chunks(text, size, overlap)| == CeilDiv(|text|, size - overlap)
  {
    WindowsFromCount(text, size, size - overlap, 0);
  }

  /** Chunk `i` is the text from `i * (size - overlap)` to `i * (size - overlap) + size`,
      cut at the end of the text, and it starts inside the text. */
  lemma ChunkAt(text: string, size: nat, overlap: nat, i: nat)
    requires overlap < size
    requires i < |Chunks(text, size, overlap)|
    ensures i * (size - overlap) < |text|
    ensures Chunks(text, size, overlap)[i] ==
              text[i * (size - overlap) .. Min(i * (size - overlap) + size, |text|)]
  {
    WindowAt(text, size, size - overlap, 0, i);
    StartAfterIsProduct(i, size - overlap);
  }

  /** Empty text gives no chunks, for any parameters with `overlap < size`. */
  lemma EmptyTextNoChunks(size: nat, overlap: nat)
    requires overlap < size
    ensures Chunks("", size, overlap) == []
  {
  }

  /** Every chunk is non-empty and at most `size` long, and a chunk is shorter than `size`
      exactly when it runs to the end of the text. */
  lemma ChunkLengths(text: string, size: nat, overlap: nat, i: nat)
    requires overlap < size
    requires i < |Chunks(text, size, overlap)|
    ensures 0 < |Chunks(text, size, overlap)[i]| <= size
    ensures |Chunks(text, size, overlap)[i]| < size <==>
              i * (size - overlap) + size > |text|
    ensures |Chunks(text, size, overlap)[i]| < size ==>
              i * (size - overlap) + |Chunks(text, size, overlap)[i]| == |text|
  {
    ChunkAt(text, size, overlap, i);
    var a := i * (size - overlap);
    var c := Chunks(text, size, overlap)[i];
    assert |c| == Min(a + size, |text|) - a;
  }

  /** Neighbouring chunks overlap: what chunk `i` holds past its first `size - overlap`
      characters is a prefix of chunk `i + 1`, and is at most `overlap` characters long. */
  lemma ChunksOverlap(text: string, size: nat, overlap: nat, i: nat)
    requires overlap < size
    requires i + 1 < |Chunks(text, size, overlap)|
    ensures size - overlap <= |Chunks(text, size, overlap)[i]|
    ensures var c, d := Chunks(text, size, overlap)[i], Chunks(text, size, overlap)[i + 1];
            var shared := c[size - overlap..];
            |shared| <= overlap && shared <= d
  {
    var step := size - overlap;
    WindowAt(text, size, step, 0, i);
    WindowAt(text, size, step, 0, i + 1);
    var p := StartAfter(i, step);
    assert StartAfter(i + 1, step) == p + step;
    SharedPart(text, size, step, p);
  }

  /** Two windows `step` apart, `step <= size`, the second starting inside the text: the part
      of the first past its first `step` characters is a prefix of the second. */
  lemma SharedPart(text: string, size: nat, step: nat, p: nat)
    requires step <= size && p + step < |text|
    ensures var c := text[p..Min(p + size, |text|)];
            var d := text[p + step..Min(p + step + size, |text|)];
            step <= |c| && |c[step..]| <= size - step && c[step..] <= d
  {
  }

  /** Reassembly: the first `min(step, |c|)` characters of each chunk, concatenated. */
  function Reassemble(chunks: seq<string>, step: nat): string
  {
    if chunks == [] then ""
    else Prefix(chunks[0], step) + Reassemble(chunks[1..], step)
  }

  lemma {:induction false} ReassembleFrom(text: string, size: nat, step: nat, start: nat)
    requires 0 < step <= size
    requires start <= |text|
    ensures Reassemble(WindowsFrom(text, size, step, start), step) == text[start..]
    decreases |text| - start
  {
    if start < |text| {
      var w := Window(text, size, start);
      var rest := WindowsFrom(text, size, step, start + step);
      assert WindowsFrom(text, size, step, start) == [w] + rest;
      assert ([w] + rest)[1..] == rest;
      var next := if start + step < |text| then start + step else |text|;
      assert Prefix(w, step) == text[start..next];
      if start + step < |text| {
        ReassembleFrom(text, size, step, start + step);
      } else {
        assert rest == [];
      }
      assert text[start..next] + text[next..] == text[start..];
    }
  }

  /** Reconstruction: cutting each chunk to its first `size - overlap` characters and
      concatenating gives back exactly the text. */
  lemma ReassembleChunks(text: string, size: nat, overlap: nat)
    requires overlap < size
    ensures Reassemble(Chunks(text, size, overlap), size - overlap) == text
  {
    ReassembleFrom(text, size, size - overlap, 0);
  }

  /** With the default parameters a 1100-character text gives the windows [0, 1100) and
      [1000, 1100): the first chunk is shorter than 1200 without being the last. */
  lemma DefaultsOn1100Characters(text: string)
    requires |text| == 1100
    ensures Chunks(text, DEFAULT_SIZE, DEFAULT_OVERLAP) == [text, text[1000..]]
  {
    var w := WindowsFrom(text, 1200, 1000, 0);
    assert w == [Window(text, 1200, 0)] + WindowsFrom(text, 1200, 1000, 1000);
    assert WindowsFrom(text, 1200, 1000, 1000)
        == [Window(text, 1200, 1000)] + WindowsFrom(text, 1200, 1000, 2000);
    assert text[0..1100] == text;
  }

  /** Why `size > overlap` is required: otherwise each turn adds `size - overlap <= 0` to
      `start`, which never grows past 0, so on a non-empty text the loop condition
      `start < text.length` holds after every turn. */
  lemma {:induction false} StartNeverAdvances(text: string, size: int, overlap: int, k: nat)
    requires size <= overlap && |text| > 0
    ensures StartAfter(k, size - overlap) <= 0
    ensures StartAfter(k, size - overlap) < |text|
  {
    if k > 0 {
      StartNeverAdvances(text, size, overlap, k - 1);
    }
  }
}
