/**
  The main panel's reference list: supporting paragraphs are shown, one block
  each and in order, only when the answer is non-empty, there are paragraphs,
  and the lower-cased answer contains none of five fallback phrases.
 */
module Display {
  import opened SessionState
  import Text

  /** The fourth phrase is spelled with U+2019 RIGHT SINGLE QUOTATION MARK, not an ASCII apostrophe. */
  const FallbackPhrases: seq<string> :=
    ["no answer found", "does not provide", "unable to answer", "couldn\U{2019}t find", "sorry"]

  /** The visible text of one reference block: a bullet, a space and the paragraph. */
  const Bullet: string := "\U{2022} "

  /** `all(p not in text for p in phrases)` */
  function NoneOccurs(phrases: seq<string>, text: string): (b: bool)
    ensures b <==> forall k :: 0 <= k < |phrases| ==> !Text.Contains(text, phrases[k])
  {
    if phrases == [] then true
    else !Text.Contains(text, phrases[0]) && NoneOccurs(phrases[1..], text)
  }

  /** Python truthiness of `refs`: `None` and the empty list are both false. */
  predicate HasRefs(refs: Option<seq<string>>) {
    refs.Some? && refs.value != []
  }

  function ShowReferences(answer: string, refs: Option<seq<string>>): (show: bool)
    ensures show ==> answer != "" && HasRefs(refs)
    ensures show <==> (answer != "" && HasRefs(refs) &&
      forall k :: 0 <= k < |FallbackPhrases| ==> !Text.Contains(Text.Lower(answer), FallbackPhrases[k]))
  {
    answer != "" && HasRefs(refs) && NoneOccurs(FallbackPhrases, Text.Lower(answer))
  }

  /** The decision in terms of positions: shown exactly when the answer is non-empty, the
      references are non-empty and no phrase starts at any position of the lowered answer. */
  lemma ShowReferencesIff(answer: string, refs: Option<seq<string>>)
    ensures ShowReferences(answer, refs) <==> (answer != "" && HasRefs(refs) &&
      forall k: nat, i: nat :: k < |FallbackPhrases| ==> !Text.OccursAt(FallbackPhrases[k], Text.Lower(answer), i))
  {
    forall k | 0 <= k < |FallbackPhrases|
      ensures Text.Contains(Text.Lower(answer), FallbackPhrases[k]) <==>
        exists i: nat :: Text.OccursAt(FallbackPhrases[k], Text.Lower(answer), i)
    {
      Text.ContainsIffOccurs(Text.Lower(answer), FallbackPhrases[k]);
    }
  }

  /** The test ignores the case of ASCII letters in the answer. */
  lemma ShowReferencesCaseInsensitive(answer: string, refs: Option<seq<string>>)
    ensures ShowReferences(Text.Lower(answer), refs) == ShowReferences(answer, refs)
  {
    Text.LowerIdempotent(answer);
  }

  /** Any fallback phrase in the answer suppresses the references, whatever they are. */
  lemma FallbackSuppresses(answer: string, refs: Option<seq<string>>, k: nat, at: nat)
    requires k < |FallbackPhrases|
    requires Text.OccursAt(FallbackPhrases[k], Text.Lower(answer), at)
    ensures !ShowReferences(answer, refs)
  {
    Text.ContainsIffOccurs(Text.Lower(answer), FallbackPhrases[k]);
  }

  /** "Sorry, I could not find that" with one paragraph shows no block. */
  lemma SorryExample()
    ensures !ShowReferences("Sorry, I could not find that", Some(["p.3: ..."]))
  {
    var a := "Sorry, I could not find that";
    assert Text.OccursAt("sorry", Text.Lower(a), 0) by {
      assert Text.Lower(a)[0..] == Text.Lower(a);
      assert Text.Lower(a)[..5] == "sorry";
    }
    FallbackSuppresses(a, Some(["p.3: ..."]), 4, 0);
  }

  /** Every phrase has at least five characters, so a shorter non-empty answer never suppresses. */
  lemma ShortAnswerShowsReferences(answer: string, refs: Option<seq<string>>)
    requires answer != "" && |answer| < 5
    requires HasRefs(refs)
    ensures ShowReferences(answer, refs)
  {
  }

  /** Each paragraph as one block, in order. */
  function Bullets(refs: seq<string>): (blocks: seq<string>)
    ensures |blocks| == |refs|
    ensures forall i :: 0 <= i < |refs| ==> blocks[i] == Bullet + refs[i]
  {
    if refs == [] then [] else [Bullet + refs[0]] + Bullets(refs[1..])
  }

  /** The reference blocks rendered below the selected turn. */
  function ReferenceBlocks(sel: Selection): (blocks: seq<string>)
    ensures !ShowReferences(sel.answer, sel.refs) ==> blocks == []
    ensures ShowReferences(sel.answer, sel.refs) ==>
      && |blocks| == |sel.refs.value|
      && forall i :: 0 <= i < |blocks| ==> blocks[i] == Bullet + sel.refs.value[i]
  {
    if ShowReferences(sel.answer, sel.refs) then Bullets(sel.refs.value) else []
  }

  /** A chat turn never shows references. */
  lemma ChatSelectionHasNoBlocks(c: ChatTurn)
    ensures ReferenceBlocks(ChatSelection(c)) == []
  {
  }
}
