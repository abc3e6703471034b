/** The typewriter banner of the page: a timer-driven state machine that types
    a phrase one character at a time, holds it, deletes it one character at a
    time, holds the empty line, and moves on to the next phrase, wrapping
    around the list for ever. */
module Typing {

  /** The phrases the page cycles through, in order. */
  const SitePhrases: seq<string> := [
    "AI-powered applications.",
    "full-stack web platforms.",
    "machine learning pipelines.",
    "scalable cloud solutions.",
    "intelligent automation tools."
  ]

  /** Timer delays in milliseconds, re-armed after every tick. */
  const TypeDelay: nat := 60
  const DeleteDelay: nat := 30
  const HoldFullDelay: nat := 2000
  const HoldEmptyDelay: nat := 400

  /** A phrase list the machine can cycle through: at least one phrase, and
      no empty phrase (an empty one would never satisfy the "phrase complete"
      test and typing would run past its end for ever). */
  predicate WellFormed(phrases: seq<string>) {
    |phrases| > 0 && forall k :: 0 <= k < |phrases| ==> |phrases[k]| > 0
  }

  lemma SitePhrasesWellFormed()
    ensures WellFormed(SitePhrases)
    ensures |SitePhrases| == 5
  {
  }

  /** `s.substring(0, n)`: the end index is clamped into [0, |s|]. */
  function Substring(s: string, n: int): (r: string)
    ensures r <= s
    ensures 0 <= n <= |s| ==> |r| == n
    ensures n < 0 ==> r == []
    ensures n > |s| ==> r == s
  {
    if n < 0 then [] else if n > |s| then s else s[..n]
  }

  /** The closure state of the typewriter: which phrase, how many of its
      characters are shown, and whether the machine is deleting. */
  datatype Cursor = Cursor(phraseIndex: nat, charIndex: int, isDeleting: bool)

  /** What one tick does: the new state, the text written to the page, and
      the delay before the next tick. */
  datatype Tick = Tick(cursor: Cursor, text: string, delay: nat)

  /** The state every tick keeps: the phrase index is in range, the shown
      prefix never exceeds the phrase, a deleting machine has something left
      to delete and a typing machine has something left to type. */
  predicate Invariant(phrases: seq<string>, c: Cursor) {
    c.phraseIndex < |phrases| &&
    0 <= c.charIndex <= |phrases[c.phraseIndex]| &&
    (c.isDeleting ==> c.charIndex >= 1) &&
    (!c.isDeleting ==> c.charIndex < |phrases[c.phraseIndex]|)
  }

  /** The state the page starts in. */
  const Start: Cursor := Cursor(0, 0, false)

  /** The text the page shows for a state. */
  function Shown(phrases: seq<string>, c: Cursor): string
    requires Invariant(phrases, c)
  {
    phrases[c.phraseIndex][..c.charIndex]
  }

  /** One call of the timer callback. */
  function Step(phrases: seq<string>, c: Cursor): (t: Tick)
    requires c.phraseIndex < |phrases|
    ensures t.cursor.phraseIndex < |phrases|
    // the shown text is a prefix of the phrase the tick started on
    ensures t.text <= phrases[c.phraseIndex]
    // the phrase changes only when a deletion empties the line, and then to the next one, wrapping
    ensures t.cursor.phraseIndex ==
              if c.isDeleting && t.cursor.charIndex == 0 then (c.phraseIndex + 1) % |phrases|
              else c.phraseIndex
    // the long hold comes exactly when typing turns into deleting, the short
    // one exactly when deleting turns into typing
    ensures t.delay == HoldFullDelay <==> !c.isDeleting && t.cursor.isDeleting
    ensures t.delay == HoldEmptyDelay <==> c.isDeleting && !t.cursor.isDeleting
    ensures c.isDeleting == t.cursor.isDeleting ==>
              t.delay == if c.isDeleting then DeleteDelay else TypeDelay
  {
    var currentPhrase := phrases[c.phraseIndex];
    var charIndex := if c.isDeleting then c.charIndex - 1 else c.charIndex + 1;
    var text := Substring(currentPhrase, charIndex);
    if !c.isDeleting && charIndex == |currentPhrase| then
      Tick(Cursor(c.phraseIndex, charIndex, true), text, HoldFullDelay)
    else if c.isDeleting && charIndex == 0 then
      Tick(Cursor((c.phraseIndex + 1) % |phrases|, charIndex, false), text, HoldEmptyDelay)
    else
      Tick(Cursor(c.phraseIndex, charIndex, c.isDeleting), text,
           if c.isDeleting then DeleteDelay else TypeDelay)
  }

  /** A tick keeps the invariant; the text it writes is exactly the prefix of
      the new state, one character longer when typing and one shorter when
      deleting. */
  lemma StepKeepsInvariant(phrases: seq<string>, c: Cursor)
    requires WellFormed(phrases) && Invariant(phrases, c)
    ensures Invariant(phrases, Step(phrases, c).cursor)
    ensures Step(phrases, c).text == Shown(phrases, Step(phrases, c).cursor)
    ensures !c.isDeleting ==>
              Step(phrases, c).text == Shown(phrases, c) + [phrases[c.phraseIndex][c.charIndex]]
    ensures c.isDeleting ==>
              Step(phrases, c).text == Shown(phrases, c)[..c.charIndex - 1]
  {
    var t := Step(phrases, c);
    var s := phrases[c.phraseIndex];
    if !c.isDeleting {
      assert t.text == s[..c.charIndex + 1];
      assert s[..c.charIndex + 1] == s[..c.charIndex] + [s[c.charIndex]];
    }
  }

  /** The state after k ticks. */
  function After(phrases: seq<string>, c: Cursor, k: nat): (r: Cursor)
    requires c.phraseIndex < |phrases|
    ensures r.phraseIndex < |phrases|
    decreases k
  {
    if k == 0 then c else After(phrases, Step(phrases, c).cursor, k - 1)
  }

  /** The texts written by k successive ticks. */
  function Texts(phrases: seq<string>, c: Cursor, k: nat): (ts: seq<string>)
    requires c.phraseIndex < |phrases|
    ensures |ts| == k
    ensures forall j :: 0 <= j < k ==> ts[j] == Step(phrases, After(phrases, c, j)).text
    decreases k
  {
    if k == 0 then []
    else
      var rest := Texts(phrases, Step(phrases, c).cursor, k - 1);
      assert forall j :: 1 <= j < k ==> After(phrases, c, j) == After(phrases, Step(phrases, c).cursor, j - 1);
      [Step(phrases, c).text] + rest
  }

  lemma {:induction false} AfterAdd(phrases: seq<string>, c: Cursor, a: nat, b: nat)
    requires c.phraseIndex < |phrases|
    ensures After(phrases, c, a + b) == After(phrases, After(phrases, c, a), b)
    decreases a
  {
    if a > 0 {
      AfterAdd(phrases, Step(phrases, c).cursor, a - 1, b);
    }
  }

  /** Typing from i characters: after j ticks (j below the remaining length)
      the machine is still typing with i + j characters, and after all of them
      it holds the full phrase and is deleting. */
  lemma {:induction false} TypingPhase(phrases: seq<string>, p: nat, i: nat, j: nat)
    requires WellFormed(phrases) && p < |phrases|
    requires i < |phrases[p]| && j <= |phrases[p]| - i
    ensures After(phrases, Cursor(p, i, false), j) ==
              if i + j < |phrases[p]| then Cursor(p, i + j, false) else Cursor(p, |phrases[p]|, true)
    decreases j
  {
    if j > 0 {
      var next := Step(phrases, Cursor(p, i, false)).cursor;
      if i + 1 < |phrases[p]| {
        assert next == Cursor(p, i + 1, false);
        TypingPhase(phrases, p, i + 1, j - 1);
      } else {
        assert next == Cursor(p, |phrases[p]|, true);
        assert j == 1;
      }
    }
  }

  /** Deleting from i characters: after j < i ticks the machine is still on
      the same phrase with i - j characters, and after i ticks it is typing
      the next phrase, wrapping, from nothing. */
  lemma {:induction false} DeletingPhase(phrases: seq<string>, p: nat, i: nat, j: nat)
    requires WellFormed(phrases) && p < |phrases|
    requires 1 <= i <= |phrases[p]| && j <= i
    ensures After(phrases, Cursor(p, i, true), j) ==
              if j < i then Cursor(p, i - j, true) else Cursor((p + 1) % |phrases|, 0, false)
    decreases j
  {
    if j > 0 {
      var next := Step(phrases, Cursor(p, i, true)).cursor;
      if i > 1 {
        assert next == Cursor(p, i - 1, true);
        DeletingPhase(phrases, p, i - 1, j - 1);
      } else {
        assert next == Cursor((p + 1) % |phrases|, 0, false);
        assert j == 1;
      }
    }
  }

  /** One full round on phrase p ends, after 2|phrase| ticks, at the start of
      the next phrase, wrapping. */
  lemma {:induction false} RoundEnds(phrases: seq<string>, p: nat)
    requires WellFormed(phrases) && p < |phrases|
    ensures After(phrases, Cursor(p, 0, false), 2 * |phrases[p]|) ==
              Cursor((p + 1) % |phrases|, 0, false)
  {
    var len := |phrases[p]|;
    TypingPhase(phrases, p, 0, len);
    AfterAdd(phrases, Cursor(p, 0, false), len, len);
    DeletingPhase(phrases, p, len, len);
  }

  /** One full round on phrase p takes 2|phrase| ticks: it writes the prefixes
      of length 1 up to the whole phrase and back down to nothing, with the
      typing, holding, deleting and empty-hold delays, stays on phrase p
      throughout, and ends at the start of the next phrase. */
  lemma {:induction false} PhraseRound(phrases: seq<string>, p: nat)
    requires WellFormed(phrases) && p < |phrases|
    ensures After(phrases, Cursor(p, 0, false), 2 * |phrases[p]|) ==
              Cursor((p + 1) % |phrases|, 0, false)
    ensures forall j :: 0 <= j < 2 * |phrases[p]| ==>
              After(phrases, Cursor(p, 0, false), j).phraseIndex == p
    ensures forall j :: 0 <= j < 2 * |phrases[p]| ==>
              Step(phrases, After(phrases, Cursor(p, 0, false), j)).text ==
                phrases[p][..if j < |phrases[p]| then j + 1 else 2 * |phrases[p]| - 1 - j]
    ensures forall j :: 0 <= j < 2 * |phrases[p]| ==>
              Step(phrases, After(phrases, Cursor(p, 0, false), j)).delay ==
                if j == |phrases[p]| - 1 then HoldFullDelay
                else if j == 2 * |phrases[p]| - 1 then HoldEmptyDelay
                else if j < |phrases[p]| then TypeDelay
                else DeleteDelay
  {
    var len := |phrases[p]|;
    var c := Cursor(p, 0, false);
    var full := Cursor(p, len, true);
    TypingPhase(phrases, p, 0, len);
    forall j | 0 <= j < 2 * len
      ensures After(phrases, c, j) == if j < len then Cursor(p, j, false) else Cursor(p, 2 * len - j, true)
    {
      if j <= len {
        TypingPhase(phrases, p, 0, j);
      } else {
        AfterAdd(phrases, c, len, j - len);
        DeletingPhase(phrases, p, len, j - len);
      }
    }
    RoundEnds(phrases, p);
  }

  /** The number of ticks spent on the first k phrases of the list. */
  function Elapsed(phrases: seq<string>, k: nat): nat
    requires k <= |phrases|
  {
    if k == 0 then 0 else Elapsed(phrases, k - 1) + 2 * |phrases[k - 1]|
  }

  /** The ticks of one pass through the whole list. */
  function CycleLength(phrases: seq<string>): nat {
    Elapsed(phrases, |phrases|)
  }

  lemma WrapNext(p: nat, n: nat)
    requires p < n
    ensures (p + 1) % n == if p + 1 < n then p + 1 else 0
  {
  }

  /** Phrases are visited in order, none skipped: after the rounds of the
      first k phrases the machine is at the start of phrase k, and after the
      rounds of all of them it is back at the start of the first one. */
  lemma {:induction false} VisitsInOrder(phrases: seq<string>, k: nat)
    requires WellFormed(phrases) && k <= |phrases|
    ensures After(phrases, Start, Elapsed(phrases, k)) ==
              Cursor(if k < |phrases| then k else 0, 0, false)
  {
    if k > 0 {
      var e := Elapsed(phrases, k - 1);
      VisitsInOrder(phrases, k - 1);
      assert After(phrases, Start, e) == Cursor(k - 1, 0, false);
      AfterAdd(phrases, Start, e, 2 * |phrases[k - 1]|);
      RoundEnds(phrases, k - 1);
      WrapNext(k - 1, |phrases|);
    }
  }

  /** The typewriter runs for ever in a cycle: after m whole passes through
      the list and the rounds of the first k phrases it is at the start of
      phrase k. */
  lemma {:induction false} Periodic(phrases: seq<string>, m: nat, k: nat)
    requires WellFormed(phrases) && k < |phrases|
    ensures After(phrases, Start, m * CycleLength(phrases) + Elapsed(phrases, k)) ==
              Cursor(k, 0, false)
    decreases m
  {
    if m == 0 {
      VisitsInOrder(phrases, k);
    } else {
      var rest := (m - 1) * CycleLength(phrases) + Elapsed(phrases, k);
      assert m * CycleLength(phrases) + Elapsed(phrases, k) == CycleLength(phrases) + rest;
      AfterAdd(phrases, Start, CycleLength(phrases), rest);
      VisitsInOrder(phrases, |phrases|);
      Periodic(phrases, m - 1, k);
    }
  }

  /** With phrases "a" and "bb" the page shows "a", "", "b", "bb", "b", ""
      and then starts over with "a". */
  lemma TwoPhraseExample()
    ensures Texts(["a", "bb"], Start, 7) == ["a", "", "b", "bb", "b", "", "a"]
  {
    var ps := ["a", "bb"];
    assert ps[0] == "a" && ps[1] == "bb";
    var c1 := Step(ps, Start).cursor;
    assert c1 == Cursor(0, 1, true);
    var c2 := Step(ps, c1).cursor;
    assert c2 == Cursor(1, 0, false);
    var c3 := Step(ps, c2).cursor;
    assert c3 == Cursor(1, 1, false);
    var c4 := Step(ps, c3).cursor;
    assert c4 == Cursor(1, 2, true);
    var c5 := Step(ps, c4).cursor;
    assert c5 == Cursor(1, 1, true);
    var c6 := Step(ps, c5).cursor;
    assert c6 == Cursor(0, 0, false);
    assert Step(ps, Start).text == "a";
    assert Step(ps, c1).text == "";
    assert Step(ps, c2).text == "b";
    assert Step(ps, c3).text == "bb";
    assert Step(ps, c4).text == "b";
    assert Step(ps, c5).text == "";
    assert Step(ps, c6).text == "a";
    assert Texts(ps, c6, 1) == ["a"] + Texts(ps, Step(ps, c6).cursor, 0);
    assert Texts(ps, c5, 2) == [""] + Texts(ps, c6, 1);
    assert Texts(ps, c4, 3) == ["b"] + Texts(ps, c5, 2);
    assert Texts(ps, c3, 4) == ["bb"] + Texts(ps, c4, 3);
    assert Texts(ps, c2, 5) == ["b"] + Texts(ps, c3, 4);
    assert Texts(ps, c1, 6) == [""] + Texts(ps, c2, 5);
    assert Texts(ps, Start, 7) == ["a"] + Texts(ps, c1, 6);
  }

  /** The typewriter as the page holds it: the closure variables and the
      element whose text it rewrites. */
  class Typewriter {
    const phrases: seq<string>
    var phraseIndex: nat
    var charIndex: int
    var isDeleting: bool
    var typeSpeed: nat
    var displayed: string

    function State(): Cursor
      reads this
    {
      Cursor(phraseIndex, charIndex, isDeleting)
    }

    ghost predicate Valid()
      reads this
    {
      WellFormed(phrases) && Invariant(phrases, State())
    }

    /** The element's text before the first tick comes from the page markup. */
    constructor (phrases: seq<string>, initialText: string)
      requires WellFormed(phrases)
      ensures Valid()
      ensures this.phrases == phrases && State() == Start
      ensures typeSpeed == TypeDelay && displayed == initialText
    {
      this.phrases := phrases;
      phraseIndex, charIndex, isDeleting := 0, 0, false;
      typeSpeed := TypeDelay;
      displayed := initialText;
    }

    /** One timer callback; returns the delay the timer is re-armed with. */
    method Tick() returns (delay: nat)
      requires Valid()
      modifies this
      ensures Valid()
      ensures State() == Step(phrases, old(State())).cursor
      ensures displayed == Step(phrases, old(State())).text
      ensures delay == typeSpeed == Step(phrases, old(State())).delay
      ensures displayed == Shown(phrases, State())
    {
      StepKeepsInvariant(phrases, State());
      var currentPhrase := phrases[phraseIndex];
      if isDeleting {
        displayed := Substring(currentPhrase, charIndex - 1);
        charIndex := charIndex - 1;
        typeSpeed := DeleteDelay;
      } else {
        displayed := Substring(currentPhrase, charIndex + 1);
        charIndex := charIndex + 1;
        typeSpeed := TypeDelay;
      }

      if !isDeleting && charIndex == |currentPhrase| {
        typeSpeed := HoldFullDelay;
        isDeleting := true;
      } else if isDeleting && charIndex == 0 {
        isDeleting := false;
        phraseIndex := (phraseIndex + 1) % |phrases|;
        typeSpeed := HoldEmptyDelay;
      }
      delay := typeSpeed;
    }
  }
}
