/**
 * Vocabulary namespace tagging (advent.h:70-75).
 *
 * The four vocabulary lookups return raw ids; a raw id is tagged with its
 * namespace by adding a multiple of 1000.  PROMOTE_WORD and DEMOTE_WORD move a
 * tag up or down by one namespace.  A tag is read back by its thousands digit,
 * which has to be 0..3; anything else is the fatal condition
 * VOCABULARY_TYPE_N_OVER_1000_NOT_BETWEEN_0_AND_3 (advent.h:79).
 */
module Vocabulary {
  import opened Failures
  import CArith

  /** WORD_NOT_FOUND and WORD_EMPTY: the sentinels of the vocabulary lookups. */
  const WORD_NOT_FOUND: int := -1
  const WORD_EMPTY: int := 0

  /** Width of one namespace's range of raw ids. */
  const NAMESPACE_WIDTH: int := 1000

  datatype Namespace = Motion | Object | Action | Special

  /** A raw vocabulary id together with its namespace. */
  datatype Word = Word(ns: Namespace, raw: int)

  /** A raw id fits in one namespace's range. */
  predicate IsRaw(n: int)
  {
    0 <= n < NAMESPACE_WIDTH
  }

  /** The thousands digit that identifies a namespace. */
  function Index(ns: Namespace): (k: int)
    ensures 0 <= k <= 3
  {
    match ns
    case Motion => 0
    case Object => 1
    case Action => 2
    case Special => 3
  }

  /** MOTION_WORD(n) */
  function MotionWord(n: int): (t: int)
    ensures IsRaw(n) ==> 0 <= t < 1000
  {
    n + 0
  }

  /** OBJECT_WORD(n) */
  function ObjectWord(n: int): (t: int)
    ensures IsRaw(n) ==> 1000 <= t < 2000
  {
    n + 1000
  }

  /** ACTION_WORD(n) */
  function ActionWord(n: int): (t: int)
    ensures IsRaw(n) ==> 2000 <= t < 3000
  {
    n + 2000
  }

  /** SPECIAL_WORD(n) */
  function SpecialWord(n: int): (t: int)
    ensures IsRaw(n) ==> 3000 <= t < 4000
  {
    n + 3000
  }

  /** PROMOTE_WORD(n): moves a tag of the motion, object or action namespace one namespace up. */
  function PromoteWord(n: int): (r: int)
    ensures 0 <= n < 3000 ==> 1000 <= r < 4000 && r % 1000 == n % 1000
  {
    n + 1000
  }

  /** DEMOTE_WORD(n): undone by PROMOTE_WORD. */
  function DemoteWord(n: int): (r: int)
    ensures PromoteWord(r) == n
  {
    n - 1000
  }

  /** The tag of a word: the macro of its namespace applied to its raw id. */
  function Tag(w: Word): (t: int)
    ensures IsRaw(w.raw) ==> 1000 * Index(w.ns) <= t < 1000 * Index(w.ns) + 1000
  {
    match w.ns
    case Motion => MotionWord(w.raw)
    case Object => ObjectWord(w.raw)
    case Action => ActionWord(w.raw)
    case Special => SpecialWord(w.raw)
  }

  /** The namespace one step up, as PROMOTE_WORD moves a tag; none above Special. */
  function Promoted(ns: Namespace): (r: Option<Namespace>)
    ensures r.Some? <==> ns != Special
    ensures r.Some? ==> Index(r.value) == Index(ns) + 1
  {
    match ns
    case Motion => Some(Object)
    case Object => Some(Action)
    case Action => Some(Special)
    case Special => None
  }

  /**
   * Reads a tag back as a word, as C does: the thousands digit `t / 1000`
   * names the namespace and `t % 1000` is the raw id, both with C's truncating
   * operators; a digit outside 0..3 is the vocabulary bug.  Truncation makes
   * the digit of the tags -999..-1 zero, so the digit check reads them as
   * motion words whose raw id is out of range.
   */
  function Classify(t: int): (r: Result<Word, Bug>)
    ensures r.Success? <==> -1000 < t < 4000
    ensures r.Failure? ==> r.error == VocabularyTypeNOver1000NotBetween0And3
    ensures r.Success? ==> Tag(r.value) == t
    ensures r.Success? ==> (IsRaw(r.value.raw) <==> t >= 0)
    ensures r.Success? && t < 0 ==> r.value.ns == Motion
  {
    var k := CArith.TruncDiv(t, 1000);
    var raw := CArith.Mod(t, 1000);
    if k < 0 || k > 3 then Failure(VocabularyTypeNOver1000NotBetween0And3)
    else
      var ns := if k == 0 then Motion else if k == 1 then Object
                else if k == 2 then Action else Special;
      Success(Word(ns, raw))
  }

  /** Demoting undoes promoting, and promoting undoes demoting, for every n. */
  lemma PromoteDemoteInverse(n: int)
    ensures DemoteWord(PromoteWord(n)) == n
    ensures PromoteWord(DemoteWord(n)) == n
  {
  }

  /** The four namespace ranges are disjoint: distinct words have distinct tags. */
  lemma TagInjective(w1: Word, w2: Word)
    requires IsRaw(w1.raw) && IsRaw(w2.raw)
    ensures Tag(w1) == Tag(w2) <==> w1 == w2
  {
  }

  /** Tagging a raw id and reading the tag back gives the word again. */
  lemma {:induction false} ClassifyTag(w: Word)
    requires IsRaw(w.raw)
    ensures Classify(Tag(w)) == Success(w)
  {
  }

  /** PROMOTE_WORD carries motion tags to object tags, object to action, action to special. */
  lemma PromoteTag(w: Word)
    requires w.ns != Special
    ensures PromoteWord(Tag(w)) == Tag(Word(Promoted(w.ns).value, w.raw))
  {
  }

  /** Promoting a non-negative tag that is not special keeps its raw id and moves it up a namespace. */
  lemma ClassifyPromote(t: int)
    requires t >= 0 && Classify(t).Success? && Classify(t).value.ns != Special
    ensures Classify(PromoteWord(t))
         == Success(Word(Promoted(Classify(t).value.ns).value, Classify(t).value.raw))
  {
  }

  /** Promoting a special tag leaves the four namespaces; that is the vocabulary bug. */
  lemma PromoteSpecialFails(n: int)
    requires IsRaw(n)
    ensures Classify(PromoteWord(SpecialWord(n))).Failure?
  {
  }

  /**
   * The lookup sentinels differ, and the digit check alone does not reject
   * WORD_NOT_FOUND: it reads as a motion word whose raw id is out of range.
   * WORD_EMPTY is the tag of motion id 0, so the two read back alike.
   */
  lemma SentinelsDistinct()
    ensures WORD_NOT_FOUND != WORD_EMPTY
    ensures Classify(WORD_NOT_FOUND) == Success(Word(Motion, WORD_NOT_FOUND))
    ensures !IsRaw(Classify(WORD_NOT_FOUND).value.raw)
    ensures WORD_EMPTY == Tag(Word(Motion, 0))
    ensures Classify(WORD_EMPTY) == Success(Word(Motion, 0))
  {
  }
}
