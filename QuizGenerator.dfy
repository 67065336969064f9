/** Quiz generation and scoring (src/utils/quizGenerator.ts). Every call to
    `Math.random()` of the source becomes an explicit draw: a shuffle is driven
    by a list of draws, the question kind and the picked use or side effect by
    a roll per question. `Date.now()` is the parameter `now`. */
module QuizGenerator {
  import opened Basics
  import opened DrugTypes

  // ---------------------------------------------------------------------------
  // Randomness

  /** `s` without its element at position `j`. */
  function RemoveAt<T(==,!new)>(s: seq<T>, j: nat): (r: seq<T>)
    requires j < |s|
    ensures |r| == |s| - 1
    ensures forall k :: 0 <= k < |r| ==> r[k] == if k < j then s[k] else s[k + 1]
    ensures forall x :: x in s <==> x == s[j] || x in r
  {
    assert s == s[..j] + [s[j]] + s[j + 1..];
    s[..j] + s[j + 1..]
  }

  /** The position a draw `k` selects among `n` elements, the model of
      `Math.floor(Math.random() * n)`. */
  function Position(k: nat, n: nat): (j: nat)
    requires n > 0
    ensures j < n
    ensures k < n ==> j == k
  {
    if k < n then k else k % n
  }

  /** The position picked by the next draw among `n` elements. */
  function Pick(draws: seq<nat>, n: nat): (j: nat)
    requires n > 0
    ensures j < n
  {
    if draws == [] then 0 else Position(draws[0], n)
  }

  function Later(draws: seq<nat>): seq<nat>
  {
    if draws == [] then [] else draws[1..]
  }

  /** A random reordering, the model of `.sort(() => Math.random() - 0.5)`:
      each draw picks, modulo the number of elements left, the element placed
      next. Missing draws count as 0. */
  function Shuffle<T(==,!new)>(s: seq<T>, draws: seq<nat>): (r: seq<T>)
    ensures |r| == |s|
    ensures forall x :: x in r <==> x in s
    decreases |s|
  {
    if s == [] then []
    else
      var j := Pick(draws, |s|);
      [s[j]] + Shuffle(RemoveAt(s, j), Later(draws))
  }

  /** `x` occurs at most once in `s`. */
  predicate AtMostOnce<T(==)>(s: seq<T>, x: T)
  {
    forall i, j :: 0 <= i < j < |s| && s[i] == x ==> s[j] != x
  }

  /** A reordering does not duplicate a value. */
  lemma {:induction false} ShuffleKeepsSingle<T(!new)>(s: seq<T>, draws: seq<nat>, x: T)
    requires AtMostOnce(s, x)
    ensures AtMostOnce(Shuffle(s, draws), x)
    decreases |s|
  {
    if s != [] {
      var j := Pick(draws, |s|);
      var others := RemoveAt(s, j);
      assert s[j] == x ==> x !in others;
      ShuffleKeepsSingle(others, Later(draws), x);
    }
  }

  /** A reordering of a list without repeats has none. */
  lemma ShuffleKeepsDistinct<T(!new)>(s: seq<T>, draws: seq<nat>)
    requires Distinct(s)
    ensures Distinct(Shuffle(s, draws))
  {
    var r := Shuffle(s, draws);
    forall i, j | 0 <= i < j < |r|
      ensures r[i] != r[j]
    {
      ShuffleKeepsSingle(s, draws, r[i]);
    }
  }

  /** The reordering keeps every element as often as it occurs. */
  lemma {:induction false} ShufflePermutes<T(!new)>(s: seq<T>, draws: seq<nat>)
    ensures multiset(Shuffle(s, draws)) == multiset(s)
    decreases |s|
  {
    if s != [] {
      var j := Pick(draws, |s|);
      RemoveAtMultiset(s, j);
      ShufflePermutes(RemoveAt(s, j), Later(draws));
    }
  }

  lemma RemoveAtMultiset<T(!new)>(s: seq<T>, j: nat)
    requires j < |s|
    ensures multiset(s) == multiset{s[j]} + multiset(RemoveAt(s, j))
  {
    assert s == s[..j] + [s[j]] + s[j + 1..];
  }

  /** Every reordering of a list is the outcome of some draws, so the draws
      leave out no order the source could produce. */
  lemma {:induction false} ShuffleReaches<T(!new)>(s: seq<T>, r: seq<T>) returns (draws: seq<nat>)
    requires multiset(r) == multiset(s)
    ensures Shuffle(s, draws) == r
    decreases |s|
  {
    if s == [] {
      assert |r| == |multiset(r)| == 0;
      draws := [];
    } else {
      var j := FirstPlaced(s, r);
      var tail := ShuffleReaches(RemoveAt(s, j), r[1..]);
      draws := [j] + tail;
      assert Pick(draws, |s|) == j;
      assert Later(draws) == tail;
      assert Shuffle(s, draws) == [s[j]] + Shuffle(RemoveAt(s, j), tail);
      assert r == [r[0]] + r[1..];
    }
  }

  /** The position in `s` of the first element of a reordering `r`, and
      what is left to reorder. */
  lemma FirstPlaced<T(!new)>(s: seq<T>, r: seq<T>) returns (j: nat)
    requires multiset(r) == multiset(s) && s != []
    ensures j < |s| && |r| > 0 && s[j] == r[0]
    ensures multiset(r[1..]) == multiset(RemoveAt(s, j))
  {
    assert |r| == |multiset(r)| == |multiset(s)| == |s|;
    assert r[0] in multiset(s);
    assert r[0] in s;
    j :| 0 <= j < |s| && s[j] == r[0];
    RemoveAtMultiset(s, j);
    assert r == [r[0]] + r[1..];
    assert multiset(r) == multiset{r[0]} + multiset(r[1..]);
    forall x
      ensures multiset(r[1..])[x] == multiset(RemoveAt(s, j))[x]
    {
      assert multiset(r)[x] == multiset(s)[x];
    }
  }

  /** `.slice(0, 3)`. */
  function TakeThree<T(==,!new)>(s: seq<T>): (r: seq<T>)
    ensures |r| == Min(3, |s|)
    ensures forall x :: x in r ==> x in s
    ensures Distinct(s) ==> Distinct(r)
  {
    s[..Min(3, |s|)]
  }

  /** `Array.prototype.indexOf`: the first position holding `x`, or -1. */
  function IndexOf<T(==)>(s: seq<T>, x: T): (r: int)
    ensures r == -1 <==> x !in s
    ensures r != -1 ==> 0 <= r < |s| && s[r] == x && forall k :: 0 <= k < r ==> s[k] != x
  {
    if s == [] then -1
    else if s[0] == x then 0
    else
      var k := IndexOf(s[1..], x);
      if k == -1 then -1 else k + 1
  }

  /** The options of a question: the correct value and the distractors in a
      random order, and the position of the correct value. */
  datatype Choice = Choice(options: seq<OptionValue>, correctAnswer: int)

  /** `[correct, ...wrong].sort(random)` followed by `indexOf(correct)`. */
  function Arrange(correct: OptionValue, wrong: seq<OptionValue>, order: seq<nat>): (c: Choice)
    ensures |c.options| == 1 + |wrong|
    ensures forall v :: v in c.options <==> v == correct || v in wrong
    ensures 0 <= c.correctAnswer < |c.options| && c.options[c.correctAnswer] == correct
    ensures forall k :: 0 <= k < c.correctAnswer ==> c.options[k] != correct
    ensures correct !in wrong ==>
      forall k :: 0 <= k < |c.options| && k != c.correctAnswer ==> c.options[k] != correct
    ensures correct !in wrong && Distinct(wrong) ==> Distinct(c.options)
  {
    var all := [correct] + wrong;
    assert correct !in wrong && Distinct(wrong) ==> Distinct(all);
    assert correct !in wrong ==> AtMostOnce(all, correct);
    var options := Shuffle(all, order);
    ShuffleKeepsWhen(all, order, correct, correct !in wrong);
    Choice(options, IndexOf(options, correct))
  }

  lemma ShuffleKeepsWhen<T(!new)>(s: seq<T>, draws: seq<nat>, x: T, b: bool)
    requires b ==> AtMostOnce(s, x)
    ensures b ==> AtMostOnce(Shuffle(s, draws), x)
    ensures Distinct(s) ==> Distinct(Shuffle(s, draws))
  {
    if b {
      ShuffleKeepsSingle(s, draws, x);
    }
    if Distinct(s) {
      ShuffleKeepsDistinct(s, draws);
    }
  }

  /** Every option other than the marked one is a distractor. */
  lemma OthersAreDistractors(c: Choice, correct: OptionValue, wrong: seq<OptionValue>)
    requires forall v :: v in c.options <==> v == correct || v in wrong
    requires forall k :: 0 <= k < |c.options| && k != c.correctAnswer ==> c.options[k] != correct
    ensures forall k :: 0 <= k < |c.options| && k != c.correctAnswer ==> c.options[k] in wrong
  {
    forall k | 0 <= k < |c.options| && k != c.correctAnswer
      ensures c.options[k] in wrong
    {
      assert c.options[k] in c.options;
    }
  }

  // ---------------------------------------------------------------------------
  // What a question asks

  /** The values each question kind asks about. */
  datatype Attribute = MoaAttribute | ClassAttribute | SystemAttribute
  datatype ListField = UsesField | SideEffectsField

  function AttributeOf(d: Drug, a: Attribute): string
  {
    match a
    case MoaAttribute => d.moa
    case ClassAttribute => d.drugClass
    case SystemAttribute => d.system
  }

  function ListOf(d: Drug, f: ListField): seq<string>
  {
    match f
    case UsesField => d.uses
    case SideEffectsField => d.sideEffects
  }

  /** Whether option `v` of question `q` is true of drug `d`: its mechanism,
      one of its uses or side effects (the `undefined` option when it lists
      none), its class or its system. */
  predicate Holds(q: QuizQuestion, d: Drug, v: OptionValue)
  {
    match q.questionType
    case MoaType => v == Text(d.moa)
    case UsesType => if d.uses == [] then v == Undefined else v.Text? && v.text in d.uses
    case SideEffectsType => if d.sideEffects == [] then v == Undefined else v.Text? && v.text in d.sideEffects
    case General => v == Text(if q.id.prefix == "class" then d.drugClass else d.system)
  }

  /** A question about `d` whose marked option is true of `d` and whose
      other options are not. */
  predicate Sound(q: QuizQuestion, d: Drug)
  {
    && q.drugId == d.id
    && q.id.drugId == d.id
    && 0 <= q.correctAnswer < |q.options|
    && Holds(q, d, q.options[q.correctAnswer])
    && forall k :: 0 <= k < |q.options| && k != q.correctAnswer ==> !Holds(q, d, q.options[k])
  }

  /** One to four options, none repeated, and the marked one among them. */
  ghost predicate WellFormed(q: QuizQuestion)
  {
    && 1 <= |q.options| <= 4
    && 0 <= q.correctAnswer < |q.options|
    && Distinct(q.options)
  }

  // ---------------------------------------------------------------------------
  // Distractors

  /** The value of attribute `a` of every drug other than `drug` whose value
      differs from the drug's, in catalogue order. */
  function OtherAttributes(all: seq<Drug>, drug: Drug, a: Attribute): (r: seq<OptionValue>)
    ensures forall v :: v in r ==> v.Text? && v.text != AttributeOf(drug, a)
  {
    if all == [] then []
    else
      var d := all[0];
      (if d.id != drug.id && AttributeOf(d, a) != AttributeOf(drug, a) then [Text(AttributeOf(d, a))] else [])
      + OtherAttributes(all[1..], drug, a)
  }

  /** The pool holds exactly the differing values of the other drugs. */
  lemma {:induction false} OtherAttributesMembers(all: seq<Drug>, drug: Drug, a: Attribute)
    ensures forall v :: v in OtherAttributes(all, drug, a) <==>
      exists d :: d in all && d.id != drug.id && AttributeOf(d, a) != AttributeOf(drug, a)
        && v == Text(AttributeOf(d, a))
  {
    if all != [] {
      OtherAttributesMembers(all[1..], drug, a);
      assert forall d :: d in all <==> d == all[0] || d in all[1..];
    }
  }

  /** The entries of list `f` of every drug other than `drug` that the drug
      does not list itself, in catalogue order. */
  function OtherListed(all: seq<Drug>, drug: Drug, f: ListField): (r: seq<OptionValue>)
    ensures forall v :: v in r ==> v.Text? && v.text !in ListOf(drug, f)
  {
    if all == [] then []
    else
      var d := all[0];
      var own := Texts(Filter(ListOf(d, f), x => x !in ListOf(drug, f)));
      (if d.id != drug.id then own else []) + OtherListed(all[1..], drug, f)
  }

  /** The pool holds exactly the entries of the other drugs that the drug
      does not list. */
  lemma {:induction false} OtherListedMembers(all: seq<Drug>, drug: Drug, f: ListField)
    ensures forall v :: v in OtherListed(all, drug, f) <==>
      v.Text? && v.text !in ListOf(drug, f)
      && exists d :: d in all && d.id != drug.id && v.text in ListOf(d, f)
  {
    if all != [] {
      OtherListedMembers(all[1..], drug, f);
      assert forall d :: d in all <==> d == all[0] || d in all[1..];
    }
  }

  function Texts(xs: seq<string>): (r: seq<OptionValue>)
    ensures forall v :: v in r <==> v.Text? && v.text in xs
  {
    if xs == [] then [] else [Text(xs[0])] + Texts(xs[1..])
  }

  /** Up to three distinct distractors drawn from a pool. */
  function Distractors(pool: seq<OptionValue>, order: seq<nat>): (r: seq<OptionValue>)
    ensures |r| == Min(3, |Dedup(pool)|)
    ensures Distinct(r)
    ensures forall v :: v in r ==> v in pool
  {
    ShuffleKeepsDistinct(Dedup(pool), order);
    TakeThree(Shuffle(Dedup(pool), order))
  }

  // ---------------------------------------------------------------------------
  // Question builders

  /** The random choices made for one question: its kind, the use or side
      effect asked about, and the two shuffles. */
  datatype Kind = MoaKind | UsesKind | SideEffectsKind | ClassKind | SystemKind
  datatype Roll = Roll(kind: Kind, pick: nat, distractorOrder: seq<nat>, optionOrder: seq<nat>)

  /** `generateMOAQuestion` as written: the mechanisms of three other drugs,
      taken without removing repeats. */
  function MoaQuestionAsWritten(drug: Drug, all: seq<Drug>, roll: Roll, now: int): (q: QuizQuestion)
    ensures q.questionType == MoaType && q.id == QuestionId("moa", drug.id, now)
    ensures 1 <= |q.options| <= 4 && 0 <= q.correctAnswer < |q.options|
    ensures Sound(q, drug)
  {
    var correct := Text(drug.moa);
    var pool := OtherAttributes(all, drug, MoaAttribute);
    var wrong := TakeThree(Shuffle(pool, roll.distractorOrder));
    var c := Arrange(correct, wrong, roll.optionOrder);
    var q := QuizQuestion(QuestionId("moa", drug.id, now), drug.id,
      AttributePrompt(MoaAttribute, drug.name), c.options, c.correctAnswer, MoaType);
    OthersAreDistractors(c, correct, wrong);
    HoldsAttribute(q, drug, MoaAttribute);
    SoundFromChoice(q, drug, correct, wrong);
    q
  }

  lemma SharedMechanismPool(d: Drug, b: Drug, c: Drug)
    requires b.id != d.id && c.id != d.id && b.moa == c.moa != d.moa
    ensures var pool := OtherAttributes([d, b, c], d, MoaAttribute);
      |pool| == 2 && pool[0] == pool[1] == Text(b.moa)
  {
    assert [c][1..] == [];
    assert OtherAttributes([c], d, MoaAttribute) == [Text(b.moa)];
    assert [b, c][1..] == [c];
    assert OtherAttributes([b, c], d, MoaAttribute) == [Text(b.moa), Text(b.moa)];
    assert [d, b, c][1..] == [b, c];
  }

  lemma MoaOptionsAsWritten(drug: Drug, all: seq<Drug>, roll: Roll, now: int)
    ensures MoaQuestionAsWritten(drug, all, roll, now).options ==
      Arrange(Text(drug.moa), TakeThree(Shuffle(OtherAttributes(all, drug, MoaAttribute), roll.distractorOrder)),
        roll.optionOrder).options
  {
  }

  /** Whatever the draws, a pool of one value repeated twice yields that
      value twice as distractors. */
  lemma RepeatedDistractor(x: OptionValue, pool: seq<OptionValue>, draws: seq<nat>)
    requires |pool| == 2 && pool[0] == pool[1] == x
    ensures TakeThree(Shuffle(pool, draws)) == [x, x]
  {
    var sh := Shuffle(pool, draws);
    assert sh[0] in sh && sh[1] in sh;
    assert sh[..Min(3, |sh|)] == sh;
  }

  /** Three values drawn from two cannot all differ. */
  lemma ThreeOfTwo(o: seq<OptionValue>, m: OptionValue, x: OptionValue)
    requires |o| == 3 && forall v :: v in o ==> v == m || v == x
    ensures !Distinct(o)
  {
    assert o[0] in o && o[1] in o && o[2] in o;
  }

  /** Two other drugs sharing a mechanism give the question a repeated
      option, whatever the random draws: three options, the drug's mechanism
      and the shared one twice. */
  lemma MoaQuestionRepeatsOptions(d: Drug, b: Drug, c: Drug, roll: Roll, now: int)
    requires b.id != d.id && c.id != d.id && b.moa == c.moa != d.moa
    ensures
      var q := MoaQuestionAsWritten(d, [d, b, c], roll, now);
      && |q.options| == 3
      && (forall v :: v in q.options <==> v == Text(d.moa) || v == Text(b.moa))
      && !Distinct(q.options)
  {
    var pool := OtherAttributes([d, b, c], d, MoaAttribute);
    SharedMechanismPool(d, b, c);
    RepeatedDistractor(Text(b.moa), pool, roll.distractorOrder);
    MoaOptionsAsWritten(d, [d, b, c], roll, now);
    var o := MoaQuestionAsWritten(d, [d, b, c], roll, now).options;
    ThreeOfTwo(o, Text(d.moa), Text(b.moa));
  }

  /** `generateMOAQuestion` with repeated mechanisms removed, as the other
      builders do with `new Set`. */
  function MoaQuestion(drug: Drug, all: seq<Drug>, roll: Roll, now: int): (q: QuizQuestion)
    ensures q.questionType == MoaType && q.id == QuestionId("moa", drug.id, now)
    ensures Sound(q, drug) && WellFormed(q)
    ensures |q.options| == 1 + Min(3, |Dedup(OtherAttributes(all, drug, MoaAttribute))|)
  {
    AttributeQuestion(drug, all, roll, now, MoaAttribute)
  }

  /** `generateClassQuestion`. */
  function ClassQuestion(drug: Drug, all: seq<Drug>, roll: Roll, now: int): (q: QuizQuestion)
    ensures q.questionType == General && q.id == QuestionId("class", drug.id, now)
    ensures Sound(q, drug) && WellFormed(q)
    ensures |q.options| == 1 + Min(3, |Dedup(OtherAttributes(all, drug, ClassAttribute))|)
  {
    AttributeQuestion(drug, all, roll, now, ClassAttribute)
  }

  /** `generateSystemQuestion`. */
  function SystemQuestion(drug: Drug, all: seq<Drug>, roll: Roll, now: int): (q: QuizQuestion)
    ensures q.questionType == General && q.id == QuestionId("system", drug.id, now)
    ensures Sound(q, drug) && WellFormed(q)
    ensures |q.options| == 1 + Min(3, |Dedup(OtherAttributes(all, drug, SystemAttribute))|)
  {
    AttributeQuestion(drug, all, roll, now, SystemAttribute)
  }

  function AttributePrefix(a: Attribute): string
  {
    match a
    case MoaAttribute => "moa"
    case ClassAttribute => "class"
    case SystemAttribute => "system"
  }

  function AttributeType(a: Attribute): QuestionType
  {
    if a == MoaAttribute then MoaType else General
  }

  function AttributePrompt(a: Attribute, name: string): string
  {
    match a
    case MoaAttribute => "What is the mechanism of action of " + name + "?"
    case ClassAttribute => name + " belongs to which drug class?"
    case SystemAttribute => name + " primarily affects which body system?"
  }

  /** For a mechanism, class or system question, exactly the drug's own value
      is true of it. */
  lemma HoldsAttribute(q: QuizQuestion, d: Drug, a: Attribute)
    requires q.questionType == AttributeType(a) && q.id.prefix == AttributePrefix(a)
    ensures forall v :: Holds(q, d, v) <==> v == Text(AttributeOf(d, a))
  {
    assert "system"[0] != "class"[0];
  }

  /** A question is sound when its marked option is true of the drug and every
      other option is a distractor that is not. */
  lemma SoundFromChoice(q: QuizQuestion, d: Drug, correct: OptionValue, wrong: seq<OptionValue>)
    requires q.drugId == d.id && q.id.drugId == d.id
    requires 0 <= q.correctAnswer < |q.options| && q.options[q.correctAnswer] == correct
    requires forall k :: 0 <= k < |q.options| && k != q.correctAnswer ==> q.options[k] in wrong
    requires Holds(q, d, correct)
    requires forall w :: w in wrong ==> !Holds(q, d, w)
    ensures Sound(q, d)
  {
  }

  /** The shared shape of the mechanism, class and system questions. */
  function AttributeQuestion(drug: Drug, all: seq<Drug>, roll: Roll, now: int, a: Attribute): (q: QuizQuestion)
    ensures q.id == QuestionId(AttributePrefix(a), drug.id, now)
    ensures q.questionType == AttributeType(a)
    ensures Sound(q, drug) && WellFormed(q)
    ensures |q.options| == 1 + Min(3, |Dedup(OtherAttributes(all, drug, a))|)
  {
    var correct := Text(AttributeOf(drug, a));
    var wrong := Distractors(OtherAttributes(all, drug, a), roll.distractorOrder);
    var c := Arrange(correct, wrong, roll.optionOrder);
    var q := QuizQuestion(QuestionId(AttributePrefix(a), drug.id, now), drug.id,
      AttributePrompt(a, drug.name), c.options, c.correctAnswer, AttributeType(a));
    OthersAreDistractors(c, correct, wrong);
    HoldsAttribute(q, drug, a);
    SoundFromChoice(q, drug, correct, wrong);
    q
  }

  /** `generateUsesQuestion`. */
  function UsesQuestion(drug: Drug, all: seq<Drug>, roll: Roll, now: int): (q: QuizQuestion)
    ensures q.questionType == UsesType && q.id == QuestionId("uses", drug.id, now)
    ensures Sound(q, drug) && WellFormed(q)
    ensures |q.options| == 1 + Min(3, |Dedup(OtherListed(all, drug, UsesField))|)
  {
    ListQuestion(drug, all, roll, now, UsesField)
  }

  /** `generateSideEffectsQuestion`. */
  function SideEffectsQuestion(drug: Drug, all: seq<Drug>, roll: Roll, now: int): (q: QuizQuestion)
    ensures q.questionType == SideEffectsType && q.id == QuestionId("side_effects", drug.id, now)
    ensures Sound(q, drug) && WellFormed(q)
    ensures |q.options| == 1 + Min(3, |Dedup(OtherListed(all, drug, SideEffectsField))|)
  {
    ListQuestion(drug, all, roll, now, SideEffectsField)
  }

  function ListPrefix(f: ListField): string
  {
    if f == UsesField then "uses" else "side_effects"
  }

  function ListType(f: ListField): QuestionType
  {
    if f == UsesField then UsesType else SideEffectsType
  }

  function ListPrompt(f: ListField, name: string): string
  {
    if f == UsesField then "Which of the following is a clinical use of " + name + "?"
    else "Which of the following is a side effect of " + name + "?"
  }

  /** For a use or side-effect question, the true options are the drug's own
      entries, or `undefined` when it lists none. */
  lemma HoldsListed(q: QuizQuestion, d: Drug, f: ListField)
    requires q.questionType == ListType(f)
    ensures forall v :: Holds(q, d, v) <==>
      if ListOf(d, f) == [] then v == Undefined else v.Text? && v.text in ListOf(d, f)
  {
  }

  /** The shared shape of the use and side-effect questions: one entry of the
      drug's list, picked by the roll (`undefined` when the list is empty),
      against entries of other drugs that the drug does not list. */
  function ListQuestion(drug: Drug, all: seq<Drug>, roll: Roll, now: int, f: ListField): (q: QuizQuestion)
    ensures q.id == QuestionId(ListPrefix(f), drug.id, now)
    ensures q.questionType == ListType(f)
    ensures Sound(q, drug) && WellFormed(q)
    ensures |q.options| == 1 + Min(3, |Dedup(OtherListed(all, drug, f))|)
  {
    var own := ListOf(drug, f);
    var correct := if own == [] then Undefined else Text(own[Position(roll.pick, |own|)]);
    var wrong := Distractors(OtherListed(all, drug, f), roll.distractorOrder);
    var c := Arrange(correct, wrong, roll.optionOrder);
    var q := QuizQuestion(QuestionId(ListPrefix(f), drug.id, now), drug.id,
      ListPrompt(f, drug.name), c.options, c.correctAnswer, ListType(f));
    ListQuestionSound(q, drug, f, correct, wrong, c);
    q
  }

  /** The marked entry is the drug's own and the distractors are not, so the
      question is sound and has no repeated option. */
  lemma ListQuestionSound(q: QuizQuestion, drug: Drug, f: ListField, correct: OptionValue,
                          wrong: seq<OptionValue>, c: Choice)
    requires q.drugId == drug.id && q.id.drugId == drug.id && q.questionType == ListType(f)
    requires q.options == c.options && q.correctAnswer == c.correctAnswer
    requires ListOf(drug, f) == [] ==> correct == Undefined
    requires ListOf(drug, f) != [] ==> correct.Text? && correct.text in ListOf(drug, f)
    requires forall w :: w in wrong ==> w.Text? && w.text !in ListOf(drug, f)
    requires forall v :: v in c.options <==> v == correct || v in wrong
    requires 0 <= c.correctAnswer < |c.options| && c.options[c.correctAnswer] == correct
    requires correct !in wrong ==>
      forall k :: 0 <= k < |c.options| && k != c.correctAnswer ==> c.options[k] != correct
    ensures correct !in wrong
    ensures Sound(q, drug)
  {
    OthersAreDistractors(c, correct, wrong);
    HoldsListed(q, drug, f);
    SoundFromChoice(q, drug, correct, wrong);
  }

  /** The `switch` on the drawn question kind. */
  function BuildQuestion(drug: Drug, all: seq<Drug>, roll: Roll, now: int): (q: QuizQuestion)
    ensures Sound(q, drug) && WellFormed(q)
    ensures q.id.createdAt == now
  {
    match roll.kind
    case MoaKind => MoaQuestion(drug, all, roll, now)
    case UsesKind => UsesQuestion(drug, all, roll, now)
    case SideEffectsKind => SideEffectsQuestion(drug, all, roll, now)
    case ClassKind => ClassQuestion(drug, all, roll, now)
    case SystemKind => SystemQuestion(drug, all, roll, now)
  }

  /** The roll of loop slot `i`; missing rolls are all zeros. */
  function RollAt(rolls: seq<Roll>, i: nat): Roll
  {
    if i < |rolls| then rolls[i] else Roll(MoaKind, 0, [], [])
  }

  // ---------------------------------------------------------------------------
  // The quiz

  /** `generateQuizQuestions`: walks the first `min(count, |drugs|)` drugs of
      a shuffled copy of the catalogue, skipping a drug whose id was already
      asked about, and asks one question about each of the others. */
  method GenerateQuizQuestions(drugs: seq<Drug>, count: int, order: seq<nat>, rolls: seq<Roll>, now: int)
    returns (questions: seq<QuizQuestion>)
    ensures |questions| <= if Min(count, |drugs|) < 0 then 0 else Min(count, |drugs|)
    ensures DistinctIds(drugs) && count >= 0 ==> |questions| == Min(count, |drugs|)
    ensures forall j, k :: 0 <= j < k < |questions| ==> questions[j].drugId != questions[k].drugId
    ensures AboutCatalogue(questions, drugs, now)
  {
    var shuffled := Shuffle(drugs, order);
    var n := Min(count, |drugs|);
    var used: set<int> := {};
    questions := [];
    ghost var subjects: seq<Drug> := [];
    var i := 0;
    while i < n
      invariant 0 <= i && (n >= 0 ==> i <= n) && (n < 0 ==> i == 0)
      invariant |questions| <= i
      invariant DistinctIds(shuffled) ==> |questions| == i
      invariant forall x :: x in used ==> exists k :: 0 <= k < i && shuffled[k].id == x
      invariant Unrepeated(questions, used)
      invariant Asked(questions, subjects, drugs, now)
    {
      var drug := shuffled[i];
      if drug.id in used {
        assert !DistinctIds(shuffled);
        i := i + 1;
        continue;
      }
      ghost var before := used;
      used := used + {drug.id};
      var question := BuildQuestion(drug, drugs, RollAt(rolls, i), now);
      AskedExtend(questions, subjects, drugs, now, question, drug);
      UnrepeatedExtend(questions, before, question);
      questions := questions + [question];
      subjects := subjects + [drug];
      i := i + 1;
    }
    AskedMeans(questions, subjects, drugs, now);
    if DistinctIds(drugs) {
      ShuffleKeepsDistinctIds(drugs, order);
    }
  }

  /** The questions are about distinct drugs, all in `used`. */
  predicate Unrepeated(questions: seq<QuizQuestion>, used: set<int>)
  {
    && (forall k :: 0 <= k < |questions| ==> questions[k].drugId in used)
    && (forall j, k :: 0 <= j < k < |questions| ==> questions[j].drugId != questions[k].drugId)
  }

  lemma UnrepeatedExtend(questions: seq<QuizQuestion>, used: set<int>, q: QuizQuestion)
    requires Unrepeated(questions, used) && q.drugId !in used
    ensures Unrepeated(questions + [q], used + {q.drugId})
  {
  }

  /** Each question asks soundly about the drug beside it, a drug of the
      catalogue. */
  ghost predicate Asked(questions: seq<QuizQuestion>, subjects: seq<Drug>, drugs: seq<Drug>, now: int)
  {
    && |questions| == |subjects|
    && forall k :: 0 <= k < |questions| ==>
      WellFormed(questions[k]) && questions[k].id.createdAt == now
      && subjects[k] in drugs && Sound(questions[k], subjects[k])
  }

  lemma AskedExtend(questions: seq<QuizQuestion>, subjects: seq<Drug>, drugs: seq<Drug>, now: int,
                    q: QuizQuestion, d: Drug)
    requires Asked(questions, subjects, drugs, now)
    requires WellFormed(q) && q.id.createdAt == now && d in drugs && Sound(q, d)
    ensures Asked(questions + [q], subjects + [d], drugs, now)
  {
  }

  /** Every question is well formed, stamped `now`, and sound about some drug
      of the catalogue. */
  ghost predicate AboutCatalogue(questions: seq<QuizQuestion>, drugs: seq<Drug>, now: int)
  {
    forall k :: 0 <= k < |questions| ==>
      WellFormed(questions[k]) && questions[k].id.createdAt == now
      && exists d :: d in drugs && Sound(questions[k], d)
  }

  lemma AskedMeans(questions: seq<QuizQuestion>, subjects: seq<Drug>, drugs: seq<Drug>, now: int)
    requires Asked(questions, subjects, drugs, now)
    ensures AboutCatalogue(questions, drugs, now)
  {
    forall k | 0 <= k < |questions|
      ensures WellFormed(questions[k]) && questions[k].id.createdAt == now
      ensures exists d :: d in drugs && Sound(questions[k], d)
    {
      var d := subjects[k];
      assert d in drugs && Sound(questions[k], d);
    }
  }

  /** A reordering of drugs with distinct ids has distinct ids. */
  lemma ShuffleKeepsDistinctIds(drugs: seq<Drug>, draws: seq<nat>)
    requires DistinctIds(drugs)
    ensures DistinctIds(Shuffle(drugs, draws))
  {
    ShuffleKeepsDistinct(drugs, draws);
    var r := Shuffle(drugs, draws);
    forall i, j | 0 <= i < j < |r|
      ensures r[i].id != r[j].id
    {
      assert r[i] in drugs && r[j] in drugs;
      var p :| 0 <= p < |drugs| && drugs[p] == r[i];
      var q :| 0 <= q < |drugs| && drugs[q] == r[j];
      assert r[i] != r[j];
      if p < q {
        assert drugs[p].id != drugs[q].id;
      } else if q < p {
        assert drugs[q].id != drugs[p].id;
      }
    }
  }

  // ---------------------------------------------------------------------------
  // Scoring

  /** The result of `calculateScore`. The percentage is absent for an empty
      quiz, where the source divides by zero and yields `NaN`. */
  datatype Score = Score(score: nat, totalQuestions: nat, percentage: Option<int>, correctAnswers: seq<int>)

  /** The positions, from the first, where the answer equals the key;
      answers beyond the key compare with `undefined` and never match. */
  function Matches(answers: seq<int>, key: seq<int>): (n: nat)
    ensures n <= |answers| && n <= |key|
  {
    if answers == [] || key == [] then 0
    else (if answers[0] == key[0] then 1 else 0) + Matches(answers[1..], key[1..])
  }

  function KeyOf(questions: seq<QuizQuestion>): (key: seq<int>)
    ensures |key| == |questions|
    ensures forall i :: 0 <= i < |key| ==> key[i] == questions[i].correctAnswer
  {
    seq(|questions|, i requires 0 <= i < |questions| => questions[i].correctAnswer)
  }

  /** `calculateScore`. */
  function CalculateScore(questions: seq<QuizQuestion>, answers: seq<int>): (r: Score)
    ensures r.totalQuestions == |questions|
    ensures r.correctAnswers == KeyOf(questions)
    ensures r.score <= |questions| && r.score <= |answers|
    ensures r.percentage.None? <==> |questions| == 0
    ensures r.percentage.Some? ==> 0 <= r.percentage.value <= 100
    ensures r.percentage.Some? && r.score == |questions| ==> r.percentage.value == 100
    ensures r.percentage.Some? && r.score == 0 ==> r.percentage.value == 0
  {
    var key := KeyOf(questions);
    var score := Matches(answers, key);
    Score(score, |questions|, if |questions| == 0 then None else Some(Percent(score, |questions|)), key)
  }

  /** Answering every question with its key scores every question. */
  lemma {:induction false} KeyScoresAll(key: seq<int>)
    ensures Matches(key, key) == |key|
  {
    if key != [] {
      KeyScoresAll(key[1..]);
    }
  }

  lemma PerfectQuiz(questions: seq<QuizQuestion>)
    requires |questions| > 0
    ensures CalculateScore(questions, KeyOf(questions)).score == |questions|
    ensures CalculateScore(questions, KeyOf(questions)).percentage == Some(100)
  {
    KeyScoresAll(KeyOf(questions));
  }

  /** Correcting one wrong answer raises the score by exactly one. */
  lemma {:induction false} CorrectingAnswerAddsOne(answers: seq<int>, key: seq<int>, i: nat)
    requires i < |answers| && i < |key| && answers[i] != key[i]
    ensures Matches(answers[i := key[i]], key) == Matches(answers, key) + 1
  {
    if i > 0 {
      assert answers[i := key[i]][1..] == answers[1..][i - 1 := key[i]];
      CorrectingAnswerAddsOne(answers[1..], key[1..], i - 1);
    } else {
      assert answers[i := key[i]][1..] == answers[1..];
    }
  }

  /** Answers past the last question do not change the score. */
  lemma {:induction false} ExtraAnswersIgnored(answers: seq<int>, extra: seq<int>, key: seq<int>)
    requires |answers| >= |key|
    ensures Matches(answers + extra, key) == Matches(answers, key)
  {
    if key != [] {
      assert (answers + extra)[1..] == answers[1..] + extra;
      ExtraAnswersIgnored(answers[1..], extra, key[1..]);
    }
  }
}
