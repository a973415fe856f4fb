/** The context assembler of the grounded prompt (`_make_context`): retrieved
    passages, each kept once by id, are formatted as `[ref]` blocks, joined,
    cut to a character budget and framed by a header and the question. */
module Context {
  import opened Text

  /** A retrieved passage. Its relevance score only feeds a debug panel and is not modelled. */
  datatype Hit = Hit(id: string, ref: string, text: string)

  const MaxContextChars: nat := 6000
  const BlockSeparator := "\n---\n"
  const ExcerptsHeader := "DOCUMENT EXCERPTS:\n"
  const QuestionMarker := "\n\nQUESTION: "

  /** One kept passage as it appears in the prompt. */
  function Block(h: Hit): string {
    "[" + h.ref + "]\n" + h.text + "\n"
  }

  function Blocks(hs: seq<Hit>): seq<string> {
    seq(|hs|, k requires 0 <= k < |hs| => Block(hs[k]))
  }

  /** The ids occurring in `hs`. */
  function Ids(hs: seq<Hit>): set<string> {
    set k | 0 <= k < |hs| :: hs[k].id
  }

  /** The hits the assembler keeps, scanning left to right and skipping a hit
      whose id an earlier hit already used. */
  function Kept(hs: seq<Hit>): seq<Hit>
    decreases |hs|
  {
    if |hs| == 0 then []
    else
      var prefix, h := hs[..|hs| - 1], hs[|hs| - 1];
      if h.id in Ids(prefix) then Kept(prefix) else Kept(prefix) + [h]
  }

  /** The passage portion: the joined blocks cut to `maxChars` characters. */
  function Excerpts(hits: seq<Hit>, maxChars: nat): string {
    var joined := Join(Blocks(Kept(hits)), BlockSeparator);
    if |joined| <= maxChars then joined else joined[..maxChars]
  }

  /** The context `_make_context(hits, question, maxChars)` returns. */
  function Assemble(hits: seq<Hit>, question: string, maxChars: nat): string {
    ExcerptsHeader + Excerpts(hits, maxChars) + QuestionMarker + question
  }

  /** The assembler's loop: `blocks` collects formatted blocks, `used` the ids seen. */
  method MakeContext(hits: seq<Hit>, question: string, maxChars: nat) returns (ctx: string)
    ensures ctx == Assemble(hits, question, maxChars)
    ensures IsPrefix(ExcerptsHeader, ctx)
    ensures |ctx| >= |QuestionMarker + question| && ctx[|ctx| - |QuestionMarker + question|..] == QuestionMarker + question
    ensures |ctx| <= |ExcerptsHeader| + maxChars + |QuestionMarker| + |question|
  {
    var blocks: seq<string> := [];
    var used: set<string> := {};
    var i := 0;
    while i < |hits|
      invariant 0 <= i <= |hits|
      invariant blocks == Blocks(Kept(hits[..i]))
      invariant used == Ids(hits[..i])
    {
      var h := hits[i];
      KeptStep(hits, i);
      if h.id !in used {
        blocks := blocks + [Block(h)];
        used := used + {h.id};
      }
      i := i + 1;
    }
    assert hits[..|hits|] == hits;
    var joined := Join(blocks, BlockSeparator);
    var excerpts := if |joined| <= maxChars then joined else joined[..maxChars];
    ctx := ExcerptsHeader + excerpts + QuestionMarker + question;
    AssembleFrame(hits, question, maxChars);
  }

  /** The frame around the excerpts: the header first, the question last,
      and at most `maxChars` characters of passages in between. */
  lemma AssembleFrame(hits: seq<Hit>, question: string, maxChars: nat)
    ensures var ctx := Assemble(hits, question, maxChars);
      && IsPrefix(ExcerptsHeader, ctx)
      && |ctx| >= |QuestionMarker + question| && ctx[|ctx| - |QuestionMarker + question|..] == QuestionMarker + question
      && |ctx| <= |ExcerptsHeader| + maxChars + |QuestionMarker| + |question|
  {
    var ctx, e := Assemble(hits, question, maxChars), Excerpts(hits, maxChars);
    assert ctx == (ExcerptsHeader + e) + (QuestionMarker + question);
  }

  /** One step of the assembler's loop over `hits[i]`. */
  lemma KeptStep(hits: seq<Hit>, i: nat)
    requires i < |hits|
    ensures Ids(hits[..i + 1]) == Ids(hits[..i]) + {hits[i].id}
    ensures hits[i].id in Ids(hits[..i]) ==> Blocks(Kept(hits[..i + 1])) == Blocks(Kept(hits[..i]))
    ensures hits[i].id !in Ids(hits[..i]) ==> Blocks(Kept(hits[..i + 1])) == Blocks(Kept(hits[..i])) + [Block(hits[i])]
  {
    assert hits[..i + 1][..i] == hits[..i];
    assert hits[..i + 1][i] == hits[i];
  }

  // ---------------------------------------------------------------------------
  // What Kept keeps

  /** Kept hits are hits of the input. */
  lemma {:induction false} KeptFromInput(hs: seq<Hit>)
    ensures forall k :: 0 <= k < |Kept(hs)| ==> Kept(hs)[k] in hs
    decreases |hs|
  {
    if |hs| > 0 {
      var prefix := hs[..|hs| - 1];
      KeptFromInput(prefix);
      assert forall h :: h in prefix ==> h in hs;
    }
  }

  /** The kept hits carry exactly the ids of the input. */
  lemma {:induction false} KeptIds(hs: seq<Hit>)
    ensures Ids(Kept(hs)) == Ids(hs)
    decreases |hs|
  {
    if |hs| > 0 {
      var prefix, h := hs[..|hs| - 1], hs[|hs| - 1];
      KeptIds(prefix);
      if h.id !in Ids(prefix) {
        IdsSnoc(Kept(prefix), h);
      }
    }
  }

  lemma IdsSnoc(hs: seq<Hit>, h: Hit)
    ensures Ids(hs + [h]) == Ids(hs) + {h.id}
  {
    var ext := hs + [h];
    forall id | id in Ids(hs) + {h.id}
      ensures id in Ids(ext)
    {
      if id == h.id {
        assert ext[|hs|].id == id;
      } else {
        var k :| 0 <= k < |hs| && hs[k].id == id;
        assert ext[k].id == id;
      }
    }
  }

  /** No id is kept twice. */
  lemma {:induction false} KeptIdsDistinct(hs: seq<Hit>)
    ensures forall a, b :: 0 <= a < b < |Kept(hs)| ==> Kept(hs)[a].id != Kept(hs)[b].id
    decreases |hs|
  {
    if |hs| > 0 {
      var prefix, h := hs[..|hs| - 1], hs[|hs| - 1];
      KeptIdsDistinct(prefix);
      KeptIds(prefix);
    }
  }

  /** Position `i` holds the first hit with its id. */
  predicate FirstOccurrence(hs: seq<Hit>, i: int) {
    0 <= i < |hs| && forall j :: 0 <= j < i ==> hs[j].id != hs[i].id
  }

  /** The kept hits are exactly the hits at first-occurrence positions, in
      input order: the first occurrence of each id wins and later duplicates
      are dropped without reordering the rest. */
  lemma {:induction false} KeptFirstOccurrences(hs: seq<Hit>) returns (idx: seq<nat>)
    ensures |idx| == |Kept(hs)|
    ensures forall k :: 0 <= k < |idx| ==> FirstOccurrence(hs, idx[k]) && Kept(hs)[k] == hs[idx[k]]
    ensures forall a, b :: 0 <= a < b < |idx| ==> idx[a] < idx[b]
    ensures forall i :: FirstOccurrence(hs, i) ==> i in idx
    decreases |hs|
  {
    if |hs| == 0 {
      idx := [];
    } else {
      var prefix, h := hs[..|hs| - 1], hs[|hs| - 1];
      var pidx := KeptFirstOccurrences(prefix);
      FirstOccurrenceSnoc(hs);
      if h.id in Ids(prefix) {
        idx := pidx;
      } else {
        idx := pidx + [|prefix|];
        assert Kept(hs) == Kept(prefix) + [h];
        forall k | 0 <= k < |idx|
          ensures FirstOccurrence(hs, idx[k]) && Kept(hs)[k] == hs[idx[k]]
        {
          if k < |pidx| {
            assert idx[k] == pidx[k];
          }
        }
      }
    }
  }

  /** Extending a sequence keeps earlier first occurrences; the new last
      element is a first occurrence exactly when its id is new. */
  lemma FirstOccurrenceSnoc(hs: seq<Hit>)
    requires |hs| > 0
    ensures forall i :: 0 <= i < |hs| - 1 ==> (FirstOccurrence(hs, i) <==> FirstOccurrence(hs[..|hs| - 1], i))
    ensures forall i :: 0 <= i < |hs| - 1 ==> hs[i] == hs[..|hs| - 1][i]
    ensures FirstOccurrence(hs, |hs| - 1) <==> hs[|hs| - 1].id !in Ids(hs[..|hs| - 1])
  {
  }

  // ---------------------------------------------------------------------------
  // The assembled context

  /** The assembled context is the header, an excerpt that is a prefix of the
      full join of at most `maxChars` characters (all of it when it fits), the
      question marker and the whole question. */
  lemma AssembleShape(hits: seq<Hit>, question: string, maxChars: nat)
    ensures var ctx, e, joined := Assemble(hits, question, maxChars), Excerpts(hits, maxChars), Join(Blocks(Kept(hits)), BlockSeparator);
      && ctx == ExcerptsHeader + e + QuestionMarker + question
      && |e| <= maxChars && IsPrefix(e, joined)
      && (|joined| <= maxChars ==> e == joined)
      && (|joined| > maxChars ==> |e| == maxChars)
  {
  }

  /** With no hits the context frames an empty excerpt. */
  lemma AssembleNoHits(question: string, maxChars: nat)
    ensures Assemble([], question, maxChars) == "DOCUMENT EXCERPTS:\n\n\nQUESTION: " + question
  {
  }

  /** A hit whose id was already used does not change the context. */
  lemma AssembleIgnoresLaterDuplicate(hits: seq<Hit>, h: Hit, question: string, maxChars: nat)
    requires h.id in Ids(hits)
    ensures Assemble(hits + [h], question, maxChars) == Assemble(hits, question, maxChars)
  {
    assert (hits + [h])[..|hits|] == hits;
  }

  /** Deduplicating the hits beforehand does not change the context. */
  lemma AssembleOfKept(hits: seq<Hit>, question: string, maxChars: nat)
    ensures Assemble(Kept(hits), question, maxChars) == Assemble(hits, question, maxChars)
  {
    KeptIdempotent(hits);
  }

  lemma {:induction false} KeptIdempotent(hs: seq<Hit>)
    ensures Kept(Kept(hs)) == Kept(hs)
    decreases |hs|
  {
    if |hs| > 0 {
      var prefix, h := hs[..|hs| - 1], hs[|hs| - 1];
      KeptIdempotent(prefix);
      if h.id !in Ids(prefix) {
        var kp := Kept(prefix);
        KeptIds(prefix);
        assert (kp + [h])[..|kp|] == kp;
      }
    }
  }
}
