/**
 * The chunker of `cargar_cerebro_candidato`: the campaign document is split on blank lines
 * (`"\n\n"`), every segment is stripped, the segments that strip to nothing are dropped, and
 * the chunks that remain get the ids `doc_chunk_0`, `doc_chunk_1`, ... by position.
 */
module Chunking {
  import opened Strings

  /** The paragraph boundary the document is split on. */
  const ParagraphBreak: string := "\n\n"

  /** Every chunk id is this prefix followed by the chunk's position in decimal. */
  const IdPrefix: string := "doc_chunk_"

  /** The document literal shipped in `cargar_cerebro_candidato`: a placeholder for the campaign text. */
  const CampaignDocument: string := "\n" + Indent + Placeholder + "\n" + Indent

  /** The four-space indentation of the lines inside the document literal. */
  const Indent: string := "    "

  /** The one line of text inside the document literal. */
  const Placeholder: string := "PEGA AQUÍ TU DOCUMENTO " + "COMPLETO Y ACTUALIZADO " + "CON LOS DOBLES SALTOS DE LÍNEA"

  /**
   * `[f(seg) for seg in segments if f(seg)]`: the images of the segments under `f`, in order,
   * with the empty ones dropped. The chunker uses it with `f` the `strip()` of each segment.
   */
  function KeepNonEmpty(segments: seq<string>, f: string -> string): (kept: seq<string>)
    ensures |kept| <= |segments|
    ensures forall j :: 0 <= j < |kept| ==> kept[j] != []
  {
    if segments == [] then []
    else (if f(segments[0]) != [] then [f(segments[0])] else []) + KeepNonEmpty(segments[1..], f)
  }

  /**
   * The chunks of a document (app.py:36-37): the paragraphs between blank lines, stripped,
   * with the blank ones dropped. None is empty and each is its own `strip()`.
   */
  function Chunks(document: string): (chunks: seq<string>)
    ensures |chunks| <= |Split(document, ParagraphBreak)|
    ensures forall j :: 0 <= j < |chunks| ==> chunks[j] != [] && Strip(chunks[j]) == chunks[j]
  {
    var segments := Split(document, ParagraphBreak);
    var cs := KeepNonEmpty(segments, Strip);
    KeptIndicesPick(segments, Strip);
    assert forall j :: 0 <= j < |cs| ==> Strip(cs[j]) == cs[j] by {
      forall j | 0 <= j < |cs| ensures Strip(cs[j]) == cs[j] {
        StripStripped(cs[j]);
      }
    }
    cs
  }

  /** `xs` is strictly increasing. */
  predicate Ascending(xs: seq<nat>) {
    forall j, k :: 0 <= j < k < |xs| ==> xs[j] < xs[k]
  }

  /** Position `j` of `kept` is the image under `f` of the segment at position `idx[j]`. */
  predicate Picks(idx: seq<nat>, kept: seq<string>, segments: seq<string>, f: string -> string) {
    |idx| == |kept| && forall j :: 0 <= j < |idx| ==> idx[j] < |segments| && kept[j] == f(segments[idx[j]])
  }

  /** Every segment whose image under `f` is not empty is listed in `idx`. */
  predicate Covers(idx: seq<nat>, segments: seq<string>, f: string -> string) {
    forall i {:trigger i in idx} :: 0 <= i < |segments| && f(segments[i]) != [] ==> i in idx
  }

  /** Every element plus one. */
  function Shift(xs: seq<nat>): (ys: seq<nat>)
    ensures |ys| == |xs| && forall k :: 0 <= k < |xs| ==> ys[k] == xs[k] + 1
  {
    seq(|xs|, k requires 0 <= k < |xs| => xs[k] + 1)
  }

  /** The positions of the segments that `KeepNonEmpty` keeps, in order. */
  function KeptIndices(segments: seq<string>, f: string -> string): seq<nat>
  {
    if segments == [] then []
    else
      var tail := Shift(KeptIndices(segments[1..], f));
      if f(segments[0]) != [] then [0] + tail else tail
  }

  /** The kept positions are positions of `segments`, in strictly increasing order. */
  lemma {:induction false} KeptIndicesAscending(segments: seq<string>, f: string -> string)
    ensures forall j :: 0 <= j < |KeptIndices(segments, f)| ==> KeptIndices(segments, f)[j] < |segments|
    ensures Ascending(KeptIndices(segments, f))
  {
    if segments != [] {
      KeptIndicesAscending(segments[1..], f);
    }
  }

  /** Kept element `j` is the image of the segment at the `j`-th kept position. */
  lemma {:induction false} KeptIndicesPick(segments: seq<string>, f: string -> string)
    ensures Picks(KeptIndices(segments, f), KeepNonEmpty(segments, f), segments, f)
  {
    if segments != [] {
      var rest := segments[1..];
      KeptIndicesPick(rest, f);
      var tail := KeptIndices(rest, f);
      var kept := KeepNonEmpty(rest, f);
      var shifted := Shift(tail);
      var idx := KeptIndices(segments, f);
      var all := KeepNonEmpty(segments, f);
      forall j | 0 <= j < |shifted| ensures shifted[j] < |segments| && kept[j] == f(segments[shifted[j]]) {
        assert segments[shifted[j]] == rest[tail[j]];
      }
      if f(segments[0]) != [] {
        assert idx == [0] + shifted && all == [f(segments[0])] + kept;
        forall j | 1 <= j < |idx| ensures idx[j] == shifted[j - 1] && all[j] == kept[j - 1] { }
      } else {
        assert idx == shifted && all == kept;
      }
    }
  }

  /** The kept position of a segment whose image is not empty. */
  lemma {:induction false} KeptPosition(segments: seq<string>, f: string -> string, i: nat) returns (k: nat)
    requires i < |segments| && f(segments[i]) != []
    ensures k < |KeptIndices(segments, f)| && KeptIndices(segments, f)[k] == i
  {
    var idx := KeptIndices(segments, f);
    var shifted := Shift(KeptIndices(segments[1..], f));
    if i == 0 {
      assert idx == [0] + shifted;
      k := 0;
    } else {
      assert segments[1..][i - 1] == segments[i];
      var k' := KeptPosition(segments[1..], f, i - 1);
      assert shifted[k'] == i;
      if f(segments[0]) != [] {
        assert idx == [0] + shifted;
        k := k' + 1;
      } else {
        assert idx == shifted;
        k := k';
      }
    }
  }

  /** Every segment whose image is not empty is at a kept position. */
  lemma KeptIndicesCover(segments: seq<string>, f: string -> string)
    ensures Covers(KeptIndices(segments, f), segments, f)
  {
    forall i | 0 <= i < |segments| && f(segments[i]) != [] ensures i in KeptIndices(segments, f) {
      var k := KeptPosition(segments, f, i);
    }
  }

  /**
   * The chunks keep the segments' order: chunk `j` is the stripped segment at position
   * `KeptIndices(segments, Strip)[j]`, those positions increase strictly, and every segment
   * that does not strip to nothing is among them.
   */
  lemma ChunksInOrder(document: string)
    ensures var segments := Split(document, ParagraphBreak);
      Picks(KeptIndices(segments, Strip), Chunks(document), segments, Strip)
      && Ascending(KeptIndices(segments, Strip))
      && Covers(KeptIndices(segments, Strip), segments, Strip)
  {
    var segments := Split(document, ParagraphBreak);
    KeptIndicesAscending(segments, Strip);
    KeptIndicesPick(segments, Strip);
    KeptIndicesCover(segments, Strip);
  }

  /** Every chunk is a contiguous piece of the document. */
  lemma ChunksOccurInDocument(document: string)
    ensures forall j :: 0 <= j < |Chunks(document)| ==> Contains(document, Chunks(document)[j])
  {
    var segments := Split(document, ParagraphBreak);
    var idx := KeptIndices(segments, Strip);
    ChunksInOrder(document);
    JoinSplit(document, ParagraphBreak);
    JoinContainsParts(segments, ParagraphBreak);
    forall j | 0 <= j < |Chunks(document)| ensures Contains(document, Chunks(document)[j]) {
      var seg := segments[idx[j]];
      var lo := StripOffset(seg);
      ContainsWitness(seg, Strip(seg), lo);
      ContainsTransitive(document, seg, Strip(seg));
    }
  }

  /** No chunk contains a paragraph break. */
  lemma ChunkAvoidsBreak(document: string, j: nat)
    requires j < |Chunks(document)|
    ensures !Contains(Chunks(document)[j], ParagraphBreak)
  {
    var segments := Split(document, ParagraphBreak);
    ChunksInOrder(document);
    var seg := segments[KeptIndices(segments, Strip)[j]];
    var c := Chunks(document)[j];
    SplitPartsAvoidSeparator(document, ParagraphBreak);
    var lo := StripOffset(seg);
    if Contains(c, ParagraphBreak) {
      ContainsWitness(seg, c, lo);
      ContainsTransitive(seg, c, ParagraphBreak);
    }
  }

  /**
   * A non-empty stripped text without a paragraph break gets none by a line break after it,
   * so a paragraph break that follows it is matched exactly where it stands.
   */
  lemma StrippedAvoidsBreak(c: string)
    requires c != [] && IsStripped(c) && !Contains(c, ParagraphBreak)
    ensures !Contains(c + ParagraphBreak[..1], ParagraphBreak)
  {
    assert ParagraphBreak[..1] == "\n";
    assert c[|c| - 1] != '\n' by { InRangesIff('\n', WhitespaceRanges); }
    if Contains("\n", ParagraphBreak) { ContainsShorter("\n", ParagraphBreak); }
    if Contains(c + "\n", ParagraphBreak) { PairInConcat(c, "\n", ParagraphBreak); }
  }

  /** Chunks that are already stripped and non-empty are kept as they are. */
  lemma {:induction false} StrippedKept(chunks: seq<string>)
    requires forall j :: 0 <= j < |chunks| ==> chunks[j] != [] && Strip(chunks[j]) == chunks[j]
    ensures KeepNonEmpty(chunks, Strip) == chunks
  {
    if chunks != [] {
      StrippedKept(chunks[1..]);
      assert [chunks[0]] + chunks[1..] == chunks;
    }
  }

  /**
   * Re-joining the chunks with the paragraph break and chunking again gives the same chunks:
   * the document is recovered up to the whitespace around its paragraphs.
   */
  lemma ChunkingJoinedChunks(document: string)
    ensures Chunks(Join(Chunks(document), ParagraphBreak)) == Chunks(document)
  {
    var cs := Chunks(document);
    if cs == [] {
      assert Split([], ParagraphBreak) == [[]];
      assert Strip([]) == [];
    } else {
      forall j | 0 <= j < |cs| ensures !Contains(cs[j] + ParagraphBreak[..1], ParagraphBreak) {
        ChunkAvoidsBreak(document, j);
        StrippedAvoidsBreak(cs[j]);
      }
      SplitJoin(cs, ParagraphBreak);
      StrippedKept(cs);
    }
  }

  /**
   * The id of the chunk at position `i`, `f"doc_chunk_{i}"`: the prefix followed by a decimal
   * numeral that reads back as `i`.
   */
  function ChunkId(i: nat): (id: string)
    ensures StartsWith(id, IdPrefix)
    ensures id[|IdPrefix|..] == NatToString(i)
    ensures IsDigits(id[|IdPrefix|..]) && ParseDecimal(id[|IdPrefix|..]) == i
  {
    ParseNatToString(i);
    assert (IdPrefix + NatToString(i))[|IdPrefix|..] == NatToString(i);
    IdPrefix + NatToString(i)
  }

  /** `[f"doc_chunk_{i}" for i in range(n)]`: one id per position, no two alike. */
  function ChunkIds(n: nat): (ids: seq<string>)
    ensures |ids| == n && forall i :: 0 <= i < n ==> ids[i] == ChunkId(i)
    ensures forall i, j :: 0 <= i < j < n ==> ids[i] != ids[j]
  {
    seq(n, i requires 0 <= i => ChunkId(i))
  }

  /** A text without a line break holds no paragraph break. */
  lemma NoBreakWithoutNewline(s: string)
    requires '\n' !in s
    ensures !Contains(s, ParagraphBreak)
  {
    if Contains(s, ParagraphBreak) { ContainsFirstChar(s, ParagraphBreak); }
  }

  /** The placeholder text is one line: its three pieces hold no line break. */
  lemma PlaceholderOneLine()
    ensures '\n' !in Placeholder
  {
    assert '\n' !in "PEGA AQUÍ TU DOCUMENTO ";
    assert '\n' !in "COMPLETO Y ACTUALIZADO ";
    assert '\n' !in "CON LOS DOBLES SALTOS DE LÍNEA";
  }

  /** The placeholder text begins and ends with a letter. */
  lemma PlaceholderStripped()
    ensures Placeholder != [] && IsStripped(Placeholder)
  {
    assert Placeholder[0] == 'P' && Placeholder[|Placeholder| - 1] == 'A';
  }

  /** The line break and indentation around the placeholder text are whitespace. */
  lemma IndentIsSpace()
    ensures '\n' !in Indent && AllSpace("\n" + Indent)
  {
    SpacesAllSpace("\n" + Indent);
  }

  /** The character facts about the placeholder text that the chunking proof needs. */
  lemma PlaceholderShape()
    ensures Placeholder != [] && IsStripped(Placeholder) && '\n' !in Placeholder
    ensures '\n' !in Indent && AllSpace("\n" + Indent)
  {
    PlaceholderOneLine();
    PlaceholderStripped();
    IndentIsSpace();
  }

  /** A one-chunk document is stored under the single id `doc_chunk_0`. */
  lemma FirstChunkId()
    ensures ChunkIds(1) == ["doc_chunk_0"]
  {
    assert NatToString(0) == [DigitChar(0)] == "0";
    assert ChunkId(0) == "doc_chunk_0";
  }

  /** The placeholder document that app.py ships with yields exactly one chunk, the placeholder line. */
  lemma CampaignDocumentChunks()
    ensures Chunks(CampaignDocument) == [Placeholder]
  {
    PlaceholderShape();
    var tail := "\n" + Indent;
    var body := Indent + Placeholder;
    assert CampaignDocument == "\n" + body + tail;
    NoBreakWithoutNewline(body);
    NoBreakWithoutNewline(Indent);
    if Contains("\n", ParagraphBreak) { ContainsShorter("\n", ParagraphBreak); }
    if Contains("\n" + body, ParagraphBreak) { PairInConcat("\n", body, ParagraphBreak); }
    if Contains(tail, ParagraphBreak) { PairInConcat("\n", Indent, ParagraphBreak); }
    if Contains("\n" + body + tail, ParagraphBreak) {
      PairInConcat("\n" + body, tail, ParagraphBreak);
    }
    SplitWithoutSeparator(CampaignDocument, ParagraphBreak);
    assert CampaignDocument == tail + Placeholder + tail;
    StripPadded(tail, Placeholder, tail);
    assert KeepNonEmpty([CampaignDocument], Strip) == [Placeholder] + KeepNonEmpty([], Strip);
  }

  /** The first sentence of the two-paragraph example document. */
  const FirstSentence: string := "Javier apoya drones de vigilancia."

  /** The second sentence of the two-paragraph example document. */
  const SecondSentence: string := "Javier promete 500 empleos jóvenes."

  /** Two one-line paragraphs separated by a blank line chunk into those two lines, in order. */
  lemma TwoParagraphs(a: string, b: string)
    requires a != [] && b != [] && IsStripped(a) && IsStripped(b)
    requires '\n' !in a && '\n' !in b
    ensures Chunks(a + ParagraphBreak + b) == [a, b]
  {
    NoMatchWithoutFirstChar(a, ParagraphBreak);
    NoBreakWithoutNewline(b);
    SplitAfterPart(a, ParagraphBreak, b);
    SplitWithoutSeparator(b, ParagraphBreak);
    StripStripped(a);
    StripStripped(b);
    var parts := Split(a + ParagraphBreak + b, ParagraphBreak);
    assert parts == [a, b];
    assert KeepNonEmpty(parts[1..], Strip) == [b] + KeepNonEmpty([], Strip);
  }

  /** The first example sentence is one stripped line. */
  lemma FirstSentenceShape()
    ensures IsStripped(FirstSentence) && '\n' !in FirstSentence
  {
    assert '\n' !in FirstSentence;
    assert FirstSentence[0] == 'J';
    assert FirstSentence[|FirstSentence| - 1] == '.';
  }

  /** The second example sentence is one stripped line. */
  lemma SecondSentenceShape()
    ensures IsStripped(SecondSentence) && '\n' !in SecondSentence
  {
    assert '\n' !in SecondSentence;
    assert SecondSentence[0] == 'J';
    assert SecondSentence[|SecondSentence| - 1] == '.';
  }

  /** "Javier apoya drones de vigilancia.\n\nJavier promete 500 empleos jóvenes." gives its two sentences. */
  lemma TwoSentenceDocumentChunks()
    ensures Chunks(FirstSentence + ParagraphBreak + SecondSentence) == [FirstSentence, SecondSentence]
  {
    FirstSentenceShape();
    SecondSentenceShape();
    TwoParagraphs(FirstSentence, SecondSentence);
  }
}
