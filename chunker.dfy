/**
 * The fixed-stride chunker inside `process_and_store_embeddings`
 * (embedding_utils.py): windows of `full_content[i:i + 1000]` for
 * i = 0, 800, 1600, ... below the text's length, keeping only the windows
 * that are not blank after `strip()`.
 */
module Chunker {
  import opened Text

  const ChunkSize: nat := 1000
  const Overlap: nat := 200
  /** The step of `range(0, len(full_content), chunk_size - overlap)`. */
  const Stride: nat := ChunkSize - Overlap

  /** The windows whose offsets are start, start + 800, ... below |s|; Python slicing clamps the end. */
  function WindowsFrom(s: string, start: nat): seq<string>
    decreases |s| - start
  {
    if start >= |s| then []
    else [s[start..Min(start + ChunkSize, |s|)]] + WindowsFrom(s, start + Stride)
  }

  function Windows(s: string): seq<string> {
    WindowsFrom(s, 0)
  }

  /** The windows that survive `if len(chunk.strip()) > 0`, in order. */
  function NonBlank(ws: seq<string>): seq<string>
    decreases |ws|
  {
    if |ws| == 0 then []
    else (if IsBlank(ws[0]) then [] else [ws[0]]) + NonBlank(ws[1..])
  }

  /** The `chunks` list that `process_and_store_embeddings` builds for a text. */
  function Chunks(s: string): seq<string> {
    NonBlank(Windows(s))
  }

  /** Number of windows: ceil((|s| - start) / 800). */
  function WindowCount(len: nat, start: nat): nat {
    if start >= len then 0 else (len - start + Stride - 1) / Stride
  }

  lemma {:induction false} WindowsFromCount(s: string, start: nat)
    ensures |WindowsFrom(s, start)| == WindowCount(|s|, start)
    decreases |s| - start
  {
    if start < |s| {
      WindowsFromCount(s, start + Stride);
      var x := |s| - start;
      if x > Stride {
        assert (x + Stride - 1) / Stride == 1 + (x - Stride + Stride - 1) / Stride;
      }
    }
  }

  /** Window k starts at offset start + 800 * k and is the clamped 1000-character slice there. */
  lemma {:induction false} WindowsFromAt(s: string, start: nat, k: nat)
    requires k < |WindowsFrom(s, start)|
    ensures start + Stride * k < |s|
    ensures WindowsFrom(s, start)[k] == s[start + Stride * k..Min(start + Stride * k + ChunkSize, |s|)]
    decreases k
  {
    if k > 0 {
      WindowsFromAt(s, start + Stride, k - 1);
      assert start + Stride + Stride * (k - 1) == start + Stride * k;
    }
  }

  /**
   * Chunk offsets are 0, 800, 1600, ... for as long as they stay below the
   * text's length: there are ceil(|s| / 800) windows, each the contiguous
   * slice of at most 1000 characters starting at 800 * k.
   */
  lemma WindowsShape(s: string)
    ensures |Windows(s)| == (|s| + Stride - 1) / Stride
    ensures forall k :: 0 <= k < |Windows(s)| ==>
      Stride * k < |s| && |Windows(s)[k]| <= ChunkSize
      && Windows(s)[k] == s[Stride * k..Min(Stride * k + ChunkSize, |s|)]
  {
    WindowsFromCount(s, 0);
    forall k | 0 <= k < |Windows(s)|
      ensures Stride * k < |s| && Windows(s)[k] == s[Stride * k..Min(Stride * k + ChunkSize, |s|)]
    {
      WindowsFromAt(s, 0, k);
    }
  }

  /** Dropping the overlap of every window but the last and concatenating the rest. */
  function Stitch(ws: seq<string>): string
    decreases |ws|
  {
    if |ws| == 0 then ""
    else if |ws| == 1 then ws[0]
    else ws[0][..Min(Stride, |ws[0]|)] + Stitch(ws[1..])
  }

  /** The windows cover the text without gaps: stitched back together they give it exactly. */
  lemma {:induction false} StitchWindowsFrom(s: string, start: nat)
    requires start <= |s|
    ensures Stitch(WindowsFrom(s, start)) == s[start..]
    decreases |s| - start
  {
    if start < |s| {
      var w := s[start..Min(start + ChunkSize, |s|)];
      if start + Stride >= |s| {
        assert WindowsFrom(s, start + Stride) == [];
        assert WindowsFrom(s, start) == [w];
      } else {
        StitchWindowsFrom(s, start + Stride);
        var rest := WindowsFrom(s, start + Stride);
        assert WindowsFrom(s, start) == [w] + rest;
        assert |rest| > 0;
        assert w[..Min(Stride, |w|)] == s[start..start + Stride];
        assert s[start..] == s[start..start + Stride] + s[start + Stride..];
      }
    }
  }

  lemma StitchWindows(s: string)
    ensures Stitch(Windows(s)) == s
  {
    StitchWindowsFrom(s, 0);
  }

  /**
   * Consecutive windows overlap: the part of window k after its first 800
   * characters is where window k + 1 begins, and it is exactly 200
   * characters long whenever window k is a full 1000 characters.
   */
  lemma WindowsOverlap(s: string, k: nat)
    requires k + 1 < |Windows(s)|
    ensures Stride <= |Windows(s)[k]|
    ensures IsPrefix(Windows(s)[k][Stride..], Windows(s)[k + 1])
    ensures |Windows(s)[k]| == ChunkSize ==> |Windows(s)[k][Stride..]| == Overlap
  {
    WindowsShape(s);
    var a := Stride * k;
    assert Stride * (k + 1) == a + Stride;
    var w0, w1 := Windows(s)[k], Windows(s)[k + 1];
    assert w0 == s[a..Min(a + ChunkSize, |s|)];
    assert w1 == s[a + Stride..Min(a + Stride + ChunkSize, |s|)];
    assert w0[Stride..] == s[a + Stride..Min(a + ChunkSize, |s|)];
    assert w1[..|w0[Stride..]|] == s[a + Stride..Min(a + ChunkSize, |s|)];
  }

  /** A chunk is a window that is not blank; every non-blank window is a chunk. */
  lemma {:induction false} NonBlankMembers(ws: seq<string>)
    ensures |NonBlank(ws)| <= |ws|
    ensures forall c :: c in NonBlank(ws) <==> c in ws && !IsBlank(c)
    decreases |ws|
  {
    if |ws| > 0 {
      NonBlankMembers(ws[1..]);
      assert ws == [ws[0]] + ws[1..];
    }
  }

  /** Dropping blank windows keeps order: the chunks are the non-blank windows in window order. */
  lemma {:induction false} NonBlankAppend(a: seq<string>, b: seq<string>)
    ensures NonBlank(a + b) == NonBlank(a) + NonBlank(b)
    decreases |a|
  {
    if |a| == 0 {
      assert a + b == b;
    } else {
      assert (a + b)[0] == a[0];
      assert (a + b)[1..] == a[1..] + b;
      NonBlankAppend(a[1..], b);
    }
  }

  lemma {:induction false} NonBlankOfBlanks(ws: seq<string>)
    requires forall c :: c in ws ==> IsBlank(c)
    ensures NonBlank(ws) == []
    decreases |ws|
  {
    if |ws| > 0 {
      assert ws[0] in ws;
      NonBlankOfBlanks(ws[1..]);
    }
  }

  lemma {:induction false} StitchBlank(ws: seq<string>)
    requires forall k :: 0 <= k < |ws| ==> IsBlank(ws[k])
    ensures IsBlank(Stitch(ws))
    decreases |ws|
  {
    if |ws| > 1 {
      StitchBlank(ws[1..]);
      var head := ws[0][..Min(Stride, |ws[0]|)];
      assert IsBlank(head);
      assert Stitch(ws) == head + Stitch(ws[1..]);
    }
  }

  lemma BlankTextBlankWindows(s: string, k: nat)
    requires IsBlank(s) && k < |Windows(s)|
    ensures IsBlank(Windows(s)[k])
  {
    WindowsFromAt(s, 0, k);
    var c := Windows(s)[k];
    assert forall i :: 0 <= i < |c| ==> c[i] == s[Stride * k + i];
  }

  /**
   * A text yields no chunk exactly when it is blank, so the early
   * `full_content.strip() == ""` skip agrees with what chunking would give.
   */
  lemma ChunksEmptyIffBlank(s: string)
    ensures Chunks(s) == [] <==> IsBlank(s)
  {
    var ws := Windows(s);
    NonBlankMembers(ws);
    if IsBlank(s) {
      forall c | c in ws
        ensures IsBlank(c)
      {
        var k :| 0 <= k < |ws| && ws[k] == c;
        BlankTextBlankWindows(s, k);
      }
      NonBlankOfBlanks(ws);
    } else if Chunks(s) == [] {
      forall k | 0 <= k < |ws|
        ensures IsBlank(ws[k])
      {
        assert ws[k] in ws;
      }
      StitchBlank(ws);
      StitchWindows(s);
    }
  }

  /** Each chunk is a non-blank contiguous piece of the text of at most 1000 characters at an offset 800 * k. */
  lemma ChunkShape(s: string, c: string)
    requires c in Chunks(s)
    ensures !IsBlank(c) && |c| <= ChunkSize
    ensures exists k :: 0 <= k && Stride * k < |s| && c == s[Stride * k..Min(Stride * k + ChunkSize, |s|)]
  {
    NonBlankMembers(Windows(s));
    WindowsShape(s);
    var k :| 0 <= k < |Windows(s)| && Windows(s)[k] == c;
  }

  /** The chunking loop at embedding_utils.py:158-165. */
  method SplitIntoChunks(fullContent: string) returns (chunks: seq<string>)
    ensures chunks == Chunks(fullContent)
  {
    chunks := [];
    var i: nat := 0;
    while i < |fullContent|
      invariant chunks + NonBlank(WindowsFrom(fullContent, i)) == Chunks(fullContent)
      decreases |fullContent| - i
    {
      var chunk := fullContent[i..Min(i + ChunkSize, |fullContent|)];
      assert WindowsFrom(fullContent, i) == [chunk] + WindowsFrom(fullContent, i + Stride);
      if !IsBlank(chunk) {
        chunks := chunks + [chunk];
      }
      i := i + Stride;
    }
  }
}
