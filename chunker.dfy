/** Paragraph splitting and the greedy chunk packer of `chunkArticleContent` in
    lib/help-center-scraper.ts. */
module Chunker {
  import opened Util
  import opened Text

  /** The `maxChunkSize` used when the caller gives none. */
  const DefaultMaxChunkSize: int := 1000

  // ---------------------------------------------------------------------------
  // content.split(/\n\s*\n/)
  // ---------------------------------------------------------------------------

  /** A match of `/\n\s*\n/` occupies `s[q..e]`: a line feed, white space, and a line feed. */
  predicate IsSeparator(s: string, q: nat, e: nat) {
    q + 2 <= e <= |s| && s[q] == '\n' && s[e - 1] == '\n'
    && forall k :: q < k < e - 1 ==> IsWhitespace(s[k])
  }

  /** A whole string that is one paragraph separator. */
  predicate IsBlankLine(sep: string) {
    IsSeparator(sep, 0, |sep|)
  }

  /** The end of the run of white space that starts at `i`. */
  function WhitespaceRunEnd(s: string, i: nat): (j: nat)
    requires i <= |s|
    ensures i <= j <= |s|
    ensures forall k :: i <= k < j ==> IsWhitespace(s[k])
    ensures j == |s| || !IsWhitespace(s[j])
    decreases |s| - i
  {
    if i == |s| || !IsWhitespace(s[i]) then i else WhitespaceRunEnd(s, i + 1)
  }

  /** The last position in `[lo, hi)` that holds a line feed, if there is one. */
  function LastNewline(s: string, lo: nat, hi: nat): (r: Option<nat>)
    requires lo <= hi <= |s|
    ensures r.Some? ==> lo <= r.value < hi && s[r.value] == '\n'
    ensures r.Some? ==> forall k :: r.value < k < hi ==> s[k] != '\n'
    ensures r.None? ==> forall k :: lo <= k < hi ==> s[k] != '\n'
    decreases hi - lo
  {
    if lo == hi then None
    else if s[hi - 1] == '\n' then Some(hi - 1)
    else LastNewline(s, lo, hi - 1)
  }

  /** Every separator that starts at `q` lies inside the white-space run after `q`. */
  lemma SeparatorInsideRun(s: string, q: nat, e: nat)
    requires IsSeparator(s, q, e)
    ensures e - 1 < WhitespaceRunEnd(s, q + 1)
  {
    var j := WhitespaceRunEnd(s, q + 1);
    if j <= e - 1 {
      assert false;
    }
  }

  /** Where the regular expression, tried at position `q`, ends its match: the `\s*` is greedy and
      gives back characters until a line feed follows, so the match is the LONGEST separator at `q`. */
  function MatchEnd(s: string, q: nat): (r: Option<nat>)
    requires q < |s|
    ensures r.Some? ==> IsSeparator(s, q, r.value)
    ensures r.Some? ==> forall e: nat :: r.value < e <= |s| ==> !IsSeparator(s, q, e)
    ensures r.None? ==> forall e: nat :: !IsSeparator(s, q, e)
  {
    if s[q] != '\n' then None
    else
      var j := WhitespaceRunEnd(s, q + 1);
      match LastNewline(s, q + 1, j)
      case None =>
        assert forall e: nat :: IsSeparator(s, q, e) ==> e - 1 < j by {
          forall e: nat | IsSeparator(s, q, e) ensures e - 1 < j { SeparatorInsideRun(s, q, e); }
        }
        None
      case Some(k) =>
        assert forall e: nat :: IsSeparator(s, q, e) ==> e - 1 < j by {
          forall e: nat | IsSeparator(s, q, e) ensures e - 1 < j { SeparatorInsideRun(s, q, e); }
        }
        Some(k + 1)
  }

  /** JavaScript's `s.split(/\n\s*\n/)` from the piece that starts at `p`, looking for the next match
      at `q` onwards (the SplitMatcher loop of the language standard). */
  function SplitFrom(s: string, p: nat, q: nat): (pieces: seq<string>)
    requires p <= q <= |s|
    ensures |pieces| >= 1
    decreases |s| - q
  {
    if q == |s| then [s[p..]]
    else
      match MatchEnd(s, q)
      case None => SplitFrom(s, p, q + 1)
      case Some(e) => [s[p..q]] + SplitFrom(s, e, e)
  }

  /** The separators `SplitFrom` cut out, in order. */
  function SeparatorsFrom(s: string, p: nat, q: nat): seq<string>
    requires p <= q <= |s|
    decreases |s| - q
  {
    if q == |s| then []
    else
      match MatchEnd(s, q)
      case None => SeparatorsFrom(s, p, q + 1)
      case Some(e) => [s[q..e]] + SeparatorsFrom(s, e, e)
  }

  /** `content.split(/\n\s*\n/)`: the paragraphs of an article. */
  function SplitParagraphs(content: string): (paragraphs: seq<string>)
    ensures |paragraphs| >= 1
  {
    SplitFrom(content, 0, 0)
  }

  /** Pieces put back together with the separators between them. */
  function Join(pieces: seq<string>, seps: seq<string>): string
    requires |pieces| == |seps| + 1
  {
    if seps == [] then pieces[0] else pieces[0] + seps[0] + Join(pieces[1..], seps[1..])
  }

  /** Splitting loses nothing: joining the paragraphs with the separators that were cut out gives
      the content back, and every separator is a blank line. */
  lemma {:induction false} SplitJoin(s: string, p: nat, q: nat)
    requires p <= q <= |s|
    ensures |SplitFrom(s, p, q)| == |SeparatorsFrom(s, p, q)| + 1
    ensures Join(SplitFrom(s, p, q), SeparatorsFrom(s, p, q)) == s[p..]
    decreases |s| - q
  {
    if q < |s| {
      match MatchEnd(s, q)
      case None => SplitJoin(s, p, q + 1);
      case Some(e) =>
        SplitJoin(s, e, e);
        JoinCons(s, p, q, e, SplitFrom(s, e, e), SeparatorsFrom(s, e, e));
    }
  }

  lemma JoinCons(s: string, p: nat, q: nat, e: nat, pieces: seq<string>, seps: seq<string>)
    requires p <= q <= e <= |s| && |pieces| == |seps| + 1 && Join(pieces, seps) == s[e..]
    ensures Join([s[p..q]] + pieces, [s[q..e]] + seps) == s[p..]
  {
    var ps, ss := [s[p..q]] + pieces, [s[q..e]] + seps;
    assert ps[1..] == pieces && ss[1..] == seps;
    assert s[p..] == s[p..q] + s[q..e] + s[e..];
  }

  /** Every separator cut out is a blank line. */
  lemma {:induction false} SeparatorsAreBlankLines(s: string, p: nat, q: nat)
    requires p <= q <= |s|
    ensures forall sep :: sep in SeparatorsFrom(s, p, q) ==> IsBlankLine(sep)
    decreases |s| - q
  {
    if q < |s| {
      match MatchEnd(s, q)
      case None => SeparatorsAreBlankLines(s, p, q + 1);
      case Some(e) =>
        SeparatorsAreBlankLines(s, e, e);
        var sep := s[q..e];
        assert IsBlankLine(sep) by {
          assert forall k :: 0 < k < |sep| - 1 ==> sep[k] == s[q + k];
        }
    }
  }

  /** The whole content is `paragraphs` joined with blank-line separators. */
  lemma ParagraphsJoin(content: string)
    ensures var seps := SeparatorsFrom(content, 0, 0);
      && |SplitParagraphs(content)| == |seps| + 1
      && Join(SplitParagraphs(content), seps) == content
      && forall sep :: sep in seps ==> IsBlankLine(sep)
  {
    SplitJoin(content, 0, 0);
    SeparatorsAreBlankLines(content, 0, 0);
  }

  // ---------------------------------------------------------------------------
  // The packer
  // ---------------------------------------------------------------------------

  /** The `currentChunk` that holds the paragraphs `g`: each one followed by `"\n\n"`. */
  function Buffer(g: seq<string>): (b: string)
    ensures |b| >= 2 * |g|
  {
    if g == [] then "" else Buffer(g[..|g| - 1]) + g[|g| - 1] + "\n\n"
  }

  lemma {:induction false} BufferAppend(a: seq<string>, b: seq<string>)
    ensures Buffer(a + b) == Buffer(a) + Buffer(b)
    decreases |b|
  {
    if b == [] {
      assert a + b == a;
    } else {
      var init, x := b[..|b| - 1], b[|b| - 1];
      assert b == init + [x];
      assert a + b == (a + init) + [x];
      calc {
        Buffer(a + b);
        { BufferSnoc(a + init, x); }
        Buffer(a + init) + x + "\n\n";
        { BufferAppend(a, init); }
        Buffer(a) + Buffer(init) + x + "\n\n";
        { BufferSnoc(init, x); }
        Buffer(a) + Buffer(b);
      }
    }
  }

  /** The state of the loop: the paragraph groups already flushed, and those in `currentChunk`. */
  datatype Packing = Packing(done: seq<seq<string>>, current: seq<string>)

  /** All groups of a packing, the open one last. */
  function Groups(st: Packing): seq<seq<string>> {
    st.done + [st.current]
  }

  /** One iteration of the loop: flush when the buffer is non-empty and adding the paragraph would
      take it past `maxChunkSize`; then append the paragraph. */
  function Step(st: Packing, paragraph: string, maxChunkSize: int): Packing {
    var size := Utf16Length(Buffer(st.current));
    if size + Utf16Length(paragraph) > maxChunkSize && size > 0 then Packing(st.done + [st.current], [paragraph])
    else Packing(st.done, st.current + [paragraph])
  }

  /** The packing after the loop has seen all of `paragraphs`. */
  function Pack(paragraphs: seq<string>, maxChunkSize: int): Packing {
    if paragraphs == [] then Packing([], [])
    else Step(Pack(paragraphs[..|paragraphs| - 1], maxChunkSize), paragraphs[|paragraphs| - 1], maxChunkSize)
  }

  /** The trimmed buffer of every flushed group, as pushed by the loop. */
  function Emit(groups: seq<seq<string>>): seq<string> {
    seq(|groups|, i requires 0 <= i < |groups| => Trim(Buffer(groups[i])))
  }

  /** What `chunkArticleContent` returns for these paragraphs: the flushed chunks, then the final
      buffer trimmed, if that is not blank. */
  function ChunksOf(paragraphs: seq<string>, maxChunkSize: int): seq<string> {
    var st := Pack(paragraphs, maxChunkSize);
    var last := Trim(Buffer(st.current));
    Emit(st.done) + (if |last| > 0 then [last] else [])
  }

  /** `chunkArticleContent(content, maxChunkSize)`. */
  function Chunks(content: string, maxChunkSize: int := DefaultMaxChunkSize): seq<string> {
    ChunksOf(SplitParagraphs(content), maxChunkSize)
  }

  /** `chunkArticleContent`: split into paragraphs, then the packing loop. */
  method ChunkArticleContent(content: string, maxChunkSize: int := DefaultMaxChunkSize)
    returns (chunks: seq<string>)
    ensures chunks == Chunks(content, maxChunkSize)
  {
    var paragraphs := SplitParagraphs(content);
    chunks := [];
    var currentChunk := "";
    ghost var st := Packing([], []);
    for i := 0 to |paragraphs|
      invariant st == Pack(paragraphs[..i], maxChunkSize)
      invariant chunks == Emit(st.done)
      invariant currentChunk == Buffer(st.current)
    {
      var paragraph := paragraphs[i];
      PackExtend(paragraphs, i, maxChunkSize);
      if Utf16Length(currentChunk) + Utf16Length(paragraph) > maxChunkSize && Utf16Length(currentChunk) > 0 {
        StepFlushes(st, paragraph, maxChunkSize);
        chunks := chunks + [Trim(currentChunk)];
        currentChunk := "";
      } else {
        StepAppends(st, paragraph, maxChunkSize);
      }
      currentChunk := currentChunk + paragraph + "\n\n";
      st := Step(st, paragraph, maxChunkSize);
    }
    PackAll(paragraphs, maxChunkSize);
    LastChunk(paragraphs, maxChunkSize);
    var last := Trim(currentChunk);
    if |last| > 0 {
      chunks := chunks + [last];
    }
  }

  lemma PackAll(paragraphs: seq<string>, maxChunkSize: int)
    ensures Pack(paragraphs[..|paragraphs|], maxChunkSize) == Pack(paragraphs, maxChunkSize)
  {
    assert paragraphs[..|paragraphs|] == paragraphs;
  }

  /** After the loop only the final buffer remains to be pushed. */
  lemma LastChunk(paragraphs: seq<string>, maxChunkSize: int)
    ensures var st := Pack(paragraphs, maxChunkSize); var last := Trim(Buffer(st.current));
      ChunksOf(paragraphs, maxChunkSize) == Emit(st.done) + (if |last| > 0 then [last] else [])
  {
  }

  lemma PackExtend(paragraphs: seq<string>, i: nat, maxChunkSize: int)
    requires i < |paragraphs|
    ensures Pack(paragraphs[..i + 1], maxChunkSize) == Step(Pack(paragraphs[..i], maxChunkSize), paragraphs[i], maxChunkSize)
  {
    assert paragraphs[..i + 1][..i] == paragraphs[..i];
  }

  lemma StepFlushes(st: Packing, paragraph: string, maxChunkSize: int)
    requires Utf16Length(Buffer(st.current)) + Utf16Length(paragraph) > maxChunkSize && Utf16Length(Buffer(st.current)) > 0
    ensures var next := Step(st, paragraph, maxChunkSize);
      && Emit(next.done) == Emit(st.done) + [Trim(Buffer(st.current))]
      && Buffer(next.current) == paragraph + "\n\n"
  {
    EmitAppend(st.done, st.current);
    BufferSnoc([], paragraph);
  }

  lemma StepAppends(st: Packing, paragraph: string, maxChunkSize: int)
    requires !(Utf16Length(Buffer(st.current)) + Utf16Length(paragraph) > maxChunkSize && Utf16Length(Buffer(st.current)) > 0)
    ensures var next := Step(st, paragraph, maxChunkSize);
      && next.done == st.done && Buffer(next.current) == Buffer(st.current) + paragraph + "\n\n"
  {
    BufferSnoc(st.current, paragraph);
  }

  lemma EmitAppend(groups: seq<seq<string>>, g: seq<string>)
    ensures Emit(groups + [g]) == Emit(groups) + [Trim(Buffer(g))]
  {
  }

  lemma BufferCons(x: string, g: seq<string>)
    ensures Utf16Length(Buffer([x] + g)) == Utf16Length(x) + 2 + Utf16Length(Buffer(g))
  {
    BufferAppend([x], g);
    BufferOfOne(x);
    Utf16Append(x + "\n\n", Buffer(g));
  }

  /** The buffer of a single paragraph, and its length. */
  lemma BufferOfOne(x: string)
    ensures Buffer([x]) == x + "\n\n"
    ensures Utf16Length(Buffer([x])) == Utf16Length(x) + 2
  {
    BufferSnoc([], x);
    assert [] + [x] == [x];
    SeparatorUnits(x);
  }

  /** A paragraph with its separator takes two code units more than the paragraph. */
  lemma SeparatorUnits(x: string)
    ensures Utf16Length(x + "\n\n") == Utf16Length(x) + 2
  {
    Utf16Append(x, "\n\n");
    Utf16LengthOfBmp("\n\n");
  }

  lemma BufferSnoc(g: seq<string>, x: string)
    ensures Buffer(g + [x]) == Buffer(g) + x + "\n\n"
  {
    assert (g + [x])[..|g|] == g;
  }

  // ---------------------------------------------------------------------------
  // What the packing guarantees
  // ---------------------------------------------------------------------------

  /** The groups, concatenated. */
  function Flatten(groups: seq<seq<string>>): seq<string> {
    if groups == [] then [] else Flatten(groups[..|groups| - 1]) + groups[|groups| - 1]
  }

  /** Paragraph order is kept and every paragraph lands in exactly one buffer. */
  lemma {:induction false} PackKeepsParagraphs(paragraphs: seq<string>, maxChunkSize: int)
    ensures Flatten(Groups(Pack(paragraphs, maxChunkSize))) == paragraphs
  {
    if paragraphs != [] {
      var init := paragraphs[..|paragraphs| - 1];
      var x := paragraphs[|paragraphs| - 1];
      PackKeepsParagraphs(init, maxChunkSize);
      var st := Pack(init, maxChunkSize);
      assert Groups(st)[..|Groups(st)| - 1] == st.done;
      assert Flatten(Groups(st)) == Flatten(st.done) + st.current;
      var st' := Pack(paragraphs, maxChunkSize);
      assert Groups(st')[..|Groups(st')| - 1] == st'.done;
      if st'.done == st.done {
        assert st'.current == st.current + [x];
      } else {
        assert st'.done == Groups(st) && st'.current == [x];
      }
      assert paragraphs == init + [x];
    }
  }

  /** No group is empty, except the open one before any paragraph was read. */
  lemma {:induction false} PackGroupsNonEmpty(paragraphs: seq<string>, maxChunkSize: int)
    ensures forall g :: g in Pack(paragraphs, maxChunkSize).done ==> g != []
    ensures paragraphs != [] <==> Pack(paragraphs, maxChunkSize).current != []
  {
    if paragraphs != [] {
      PackGroupsNonEmpty(paragraphs[..|paragraphs| - 1], maxChunkSize);
    }
  }

  /** Inside a group no flush was due: each paragraph after the first fit in the buffer before it. */
  ghost predicate Fits(g: seq<string>, maxChunkSize: int) {
    forall j :: 0 < j < |g| ==> Utf16Length(Buffer(g[..j])) + Utf16Length(g[j]) <= maxChunkSize
  }

  lemma {:induction false} PackFits(paragraphs: seq<string>, maxChunkSize: int)
    ensures forall g :: g in Groups(Pack(paragraphs, maxChunkSize)) ==> Fits(g, maxChunkSize)
  {
    if paragraphs != [] {
      var init := paragraphs[..|paragraphs| - 1];
      var x := paragraphs[|paragraphs| - 1];
      PackFits(init, maxChunkSize);
      var st := Pack(init, maxChunkSize);
      var st' := Pack(paragraphs, maxChunkSize);
      var size := Utf16Length(Buffer(st.current));
      if size + Utf16Length(x) > maxChunkSize && size > 0 {
        assert Groups(st') == Groups(st) + [[x]];
      } else {
        var g := st.current + [x];
        assert Groups(st') == st.done + [g];
        forall j | 0 < j < |g| ensures Utf16Length(Buffer(g[..j])) + Utf16Length(g[j]) <= maxChunkSize {
          if j < |st.current| {
            assert st.current in Groups(st);
            assert Fits(st.current, maxChunkSize);
            assert g[..j] == st.current[..j] && g[j] == st.current[j];
          } else {
            assert g[..j] == st.current && g[j] == x;
          }
        }
        assert Fits(g, maxChunkSize);
      }
    }
  }

  /** Group `i + 1` is non-empty and its first paragraph did not fit after group `i`. */
  ghost predicate FlushDue(gs: seq<seq<string>>, i: nat, maxChunkSize: int)
    requires i + 1 < |gs|
  {
    gs[i + 1] != [] && Utf16Length(Buffer(gs[i])) + Utf16Length(gs[i + 1][0]) > maxChunkSize
  }

  /** Between two neighbouring groups a flush was due: the first group's buffer plus the next
      group's first paragraph exceeds `maxChunkSize`. */
  lemma {:induction false} PackOverflows(paragraphs: seq<string>, maxChunkSize: int)
    ensures var gs := Groups(Pack(paragraphs, maxChunkSize));
      forall i :: 0 <= i < |gs| - 1 ==> FlushDue(gs, i, maxChunkSize)
  {
    if paragraphs != [] {
      var init := paragraphs[..|paragraphs| - 1];
      var x := paragraphs[|paragraphs| - 1];
      PackOverflows(init, maxChunkSize);
      PackGroupsNonEmpty(init, maxChunkSize);
      var st := Pack(init, maxChunkSize);
      var gs := Groups(st);
      var gs' := Groups(Pack(paragraphs, maxChunkSize));
      if Pack(paragraphs, maxChunkSize).done == st.done {
        if st.done != [] {
          assert gs'[|gs'| - 1][0] == gs[|gs| - 1][0];
        }
        forall i | 0 <= i < |gs'| - 1 ensures FlushDue(gs', i, maxChunkSize) {
          assert FlushDue(gs, i, maxChunkSize);
          assert gs'[i] == gs[i];
        }
      } else {
        assert gs' == gs + [[x]];
        forall i | 0 <= i < |gs'| - 1 ensures FlushDue(gs', i, maxChunkSize) {
          if i < |gs| - 1 { assert FlushDue(gs, i, maxChunkSize); }
        }
      }
    }
  }

  /** Greedy packing, stated without the loop: the groups cover the paragraphs in order, none is
      empty, no flush happened inside a group, and one was due at every boundary. */
  ghost predicate GreedyPacking(paragraphs: seq<string>, gs: seq<seq<string>>, maxChunkSize: int) {
    && Flatten(gs) == paragraphs
    && (forall i :: 0 <= i < |gs| - 1 ==> gs[i] != [])
    && (forall g :: g in gs ==> Fits(g, maxChunkSize))
    && (forall i :: 0 <= i < |gs| - 1 ==> FlushDue(gs, i, maxChunkSize))
  }

  /** The loop's packing is a greedy packing. */
  lemma PackIsGreedy(paragraphs: seq<string>, maxChunkSize: int)
    ensures GreedyPacking(paragraphs, Groups(Pack(paragraphs, maxChunkSize)), maxChunkSize)
  {
    PackKeepsParagraphs(paragraphs, maxChunkSize);
    PackGroupsNonEmpty(paragraphs, maxChunkSize);
    PackFits(paragraphs, maxChunkSize);
    PackOverflows(paragraphs, maxChunkSize);
  }

  /** Chunk `i` is the trimmed buffer of group `i`; the last group yields a chunk only if its
      trimmed buffer is not empty. */
  lemma ChunksAreTrimmedGroups(paragraphs: seq<string>, maxChunkSize: int)
    ensures var st := Pack(paragraphs, maxChunkSize); var chunks := ChunksOf(paragraphs, maxChunkSize);
      && |chunks| == (if IsBlank(Buffer(st.current)) then |st.done| else |st.done| + 1)
      && forall i :: 0 <= i < |chunks| ==> chunks[i] == Trim(Buffer(Groups(st)[i]))
  {
    var st := Pack(paragraphs, maxChunkSize);
    var chunks := ChunksOf(paragraphs, maxChunkSize);
    var last := Trim(Buffer(st.current));
    assert chunks == Emit(st.done) + (if |last| > 0 then [last] else []);
    forall i | 0 <= i < |chunks| ensures chunks[i] == Trim(Buffer(Groups(st)[i])) {
      if i < |st.done| {
        assert chunks[i] == Emit(st.done)[i];
      }
    }
  }

  /** A chunk built from two or more paragraphs is at most `maxChunkSize` code units long. */
  lemma MultiParagraphGroupFits(paragraphs: seq<string>, maxChunkSize: int, i: nat)
    requires i < |Groups(Pack(paragraphs, maxChunkSize))|
    requires |Groups(Pack(paragraphs, maxChunkSize))[i]| >= 2
    ensures Utf16Length(Trim(Buffer(Groups(Pack(paragraphs, maxChunkSize))[i]))) <= maxChunkSize
  {
    var g := Groups(Pack(paragraphs, maxChunkSize))[i];
    PackFits(paragraphs, maxChunkSize);
    assert Fits(g, maxChunkSize);
    var n := |g|;
    assert Utf16Length(Buffer(g[..n - 1])) + Utf16Length(g[n - 1]) <= maxChunkSize;
    TrimmedBufferBound(g);
  }

  /** The trimmed buffer is no longer than the buffer without its final separator. */
  lemma TrimmedBufferBound(g: seq<string>)
    requires g != []
    ensures Utf16Length(Trim(Buffer(g))) <= Utf16Length(Buffer(g[..|g| - 1])) + Utf16Length(g[|g| - 1])
  {
    var init, last := Buffer(g[..|g| - 1]), g[|g| - 1];
    assert Buffer(g) == init + last + "\n\n";
    TrimBeforeSeparator(init + last);
    Utf16Append(init, last);
  }

  /** Trimming a buffer drops at least its final separator. */
  lemma TrimBeforeSeparator(x: string)
    ensures Utf16Length(Trim(x + "\n\n")) <= Utf16Length(x)
  {
    var b := x + "\n\n";
    assert b[|x|..] == "\n\n" && b[..|x|] == x;
    assert IsBlank(b[|x|..]);
    TrimUtf16BeforeBlankTail(b, |x|);
  }

  /** A paragraph longer than `maxChunkSize` stands alone in its group. */
  lemma OverlongParagraphAlone(paragraphs: seq<string>, maxChunkSize: int, i: nat, j: nat)
    requires i < |Groups(Pack(paragraphs, maxChunkSize))|
    requires j < |Groups(Pack(paragraphs, maxChunkSize))[i]|
    requires Utf16Length(Groups(Pack(paragraphs, maxChunkSize))[i][j]) > maxChunkSize
    ensures Groups(Pack(paragraphs, maxChunkSize))[i] == [Groups(Pack(paragraphs, maxChunkSize))[i][j]]
  {
    var g := Groups(Pack(paragraphs, maxChunkSize))[i];
    assert Fits(g, maxChunkSize) by {
      PackFits(paragraphs, maxChunkSize);
    }
    OverlongAlone(g, maxChunkSize, j);
  }

  /** In a group where no flush was due, an over-long paragraph is the only one. */
  lemma OverlongAlone(g: seq<string>, maxChunkSize: int, j: nat)
    requires Fits(g, maxChunkSize) && j < |g| && Utf16Length(g[j]) > maxChunkSize
    ensures g == [g[j]]
  {
    if j > 0 {
      assert false;
    }
    if |g| >= 2 {
      FitsBoundsFirst(g, maxChunkSize);
      assert false;
    }
  }

  /** In a group of two or more paragraphs, the first fits on its own. */
  lemma FitsBoundsFirst(g: seq<string>, maxChunkSize: int)
    requires |g| >= 2 && Fits(g, maxChunkSize)
    ensures Utf16Length(g[0]) + 2 <= maxChunkSize
  {
    assert g[..1] == [g[0]];
    BufferOfOne(g[0]);
    assert Utf16Length(Buffer(g[..1])) + Utf16Length(g[1]) <= maxChunkSize;
  }

  /** With the whole buffer within the limit, nothing is flushed. */
  lemma {:induction false} PackNoFlush(paragraphs: seq<string>, maxChunkSize: int)
    requires paragraphs == [] || Utf16Length(Buffer(paragraphs)) - 2 <= maxChunkSize
    ensures Pack(paragraphs, maxChunkSize) == Packing([], paragraphs)
  {
    if paragraphs != [] {
      var init, x := paragraphs[..|paragraphs| - 1], paragraphs[|paragraphs| - 1];
      assert paragraphs == init + [x];
      BufferSnoc(init, x);
      SeparatorUnits(x);
      Utf16Append(Buffer(init), x + "\n\n");
      assert Buffer(init) + x + "\n\n" == Buffer(init) + (x + "\n\n");
      PackNoFlush(init, maxChunkSize);
    }
  }

  /** Every paragraph has its two separator characters in the buffer, and the separators of the
      content are at least two characters long: the buffer of all paragraphs exceeds the content by
      at most 2 code units. */
  lemma {:induction false} SplitBufferBound(s: string, p: nat, q: nat)
    requires p <= q <= |s|
    ensures Utf16Length(Buffer(SplitFrom(s, p, q))) <= Utf16Length(s[p..]) + 2
    decreases |s| - q
  {
    if q == |s| {
      BufferOfOne(s[p..]);
    } else {
      match MatchEnd(s, q)
      case None => SplitBufferBound(s, p, q + 1);
      case Some(e) =>
        SplitBufferBound(s, e, e);
        BufferCons(s[p..q], SplitFrom(s, e, e));
        assert SplitFrom(s, p, q) == [s[p..q]] + SplitFrom(s, e, e);
        SeparatorBound(s, p, q, e);
    }
  }

  /** A separator is at least two code units long. */
  lemma SeparatorBound(s: string, p: nat, q: nat, e: nat)
    requires p <= q && q + 2 <= e <= |s|
    ensures Utf16Length(s[p..q]) + Utf16Length(s[e..]) + 2 <= Utf16Length(s[p..])
  {
    assert s[p..] == s[p..q] + s[q..e] + s[e..];
    Utf16Append(s[p..q] + s[q..e], s[e..]);
    Utf16Append(s[p..q], s[q..e]);
  }

  /** Splitting blank content gives blank paragraphs. */
  lemma {:induction false} SplitBlank(s: string, p: nat, q: nat)
    requires p <= q <= |s| && IsBlank(s[p..])
    ensures forall x :: x in SplitFrom(s, p, q) ==> IsBlank(x)
    decreases |s| - q
  {
    if q < |s| {
      match MatchEnd(s, q)
      case None => SplitBlank(s, p, q + 1);
      case Some(e) =>
        assert s[p..q] == s[p..][..q - p];
        assert s[e..] == s[p..][e - p..];
        SplitBlank(s, e, e);
    }
  }

  lemma {:induction false} BufferOfBlank(g: seq<string>)
    requires forall x :: x in g ==> IsBlank(x)
    ensures IsBlank(Buffer(g))
  {
    if g != [] {
      BufferOfBlank(g[..|g| - 1]);
      assert g[|g| - 1] in g;
      BlankConcat(Buffer(g[..|g| - 1]), g[|g| - 1]);
      BlankConcat(Buffer(g[..|g| - 1]) + g[|g| - 1], "\n\n");
    }
  }

  /** White-space-only content no longer than `maxChunkSize` gives no chunks at all (with the
      default size: every blank article of at most 1000 characters). */
  lemma BlankContentHasNoChunks(content: string, maxChunkSize: int)
    requires IsBlank(content) && |content| <= maxChunkSize
    ensures Chunks(content, maxChunkSize) == []
  {
    var paragraphs := SplitParagraphs(content);
    Utf16LengthOfBmp(content);
    SplitBufferBound(content, 0, 0);
    PackNoFlush(paragraphs, maxChunkSize);
    assert content[0..] == content;
    SplitBlank(content, 0, 0);
    BufferOfBlank(paragraphs);
  }

  /** Intermediate flushes are not checked for blankness: a white-space-only first paragraph that is
      flushed becomes an empty chunk. */
  lemma {:induction false} BlankFlushGivesEmptyChunk(blank: string, next: string, maxChunkSize: int)
    requires IsBlank(blank) && Utf16Length(blank) + 2 + Utf16Length(next) > maxChunkSize
    ensures var chunks := ChunksOf([blank, next], maxChunkSize); |chunks| >= 1 && chunks[0] == ""
  {
    PackFlushesFirst(blank, next, maxChunkSize);
    assert Trim(Buffer([blank])) == "" by {
      BufferOfOne(blank);
      BlankConcat(blank, "\n\n");
    }
    assert Emit([[blank]]) == [""];
  }

  /** Two paragraphs that do not fit together are packed apart. */
  lemma PackFlushesFirst(first: string, next: string, maxChunkSize: int)
    requires Utf16Length(first) + 2 + Utf16Length(next) > maxChunkSize
    ensures Pack([first, next], maxChunkSize) == Packing([[first]], [next])
  {
    PackSingle(first, maxChunkSize);
    assert [first, next][..1] == [first];
    BufferOfOne(first);
  }

  /** A single paragraph is never flushed. */
  lemma PackSingle(x: string, maxChunkSize: int)
    ensures Pack([x], maxChunkSize) == Packing([], [x])
  {
    assert [x][..0] == [];
    assert Utf16Length(Buffer([])) == 0;
  }
}
