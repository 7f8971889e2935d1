/**
 * The typewriter effect of the hero section (app/page.tsx, TypewriterEffect).
 *
 * The component keeps three pieces of React state: the index of the current
 * phrase, the text shown so far and whether it is deleting. A timer callback
 * performs one step and the effect schedules the next one whenever the state
 * changes. The one-shot 1500 ms timer that switches to deleting is modelled by
 * the flag `pauseArmed`; the host fires either the tick timer (`Tick`) or the
 * pause timer (`FirePause`), whichever is pending.
 */
module Typewriter {

  /** The phrases shown on the portfolio's hero section, in order. */
  const Phrases: seq<string> := [
    "Bioinformatician",
    "Data Scientist",
    "Computer Scientist",
    "Genomics Researcher",
    "Machine Learning Engineer"
  ]

  const TypingDelayMs: nat := 100
  const DeletingDelayMs: nat := 50
  const PauseMs: nat := 1500

  /** What the host must do after a step: run the next tick after a delay,
      or run the pause timer that switches to deleting. */
  datatype Schedule = NextTick(delayMs: nat) | PauseArmed(pauseMs: nat)

  datatype TypewriterState = TypewriterState(phrase: nat, text: string, deleting: bool, pauseArmed: bool)

  /** The state on mount: first phrase, nothing typed, typing. */
  function Start(i: nat): TypewriterState {
    TypewriterState(i, "", false, false)
  }

  function Initial(): TypewriterState {
    Start(0)
  }

  /** The invariant of every reachable state: the index is in range, the text
      is a prefix of the current phrase, and the pause is armed only while
      typing with the whole phrase shown. */
  predicate Consistent(phrases: seq<string>, s: TypewriterState) {
    && s.phrase < |phrases|
    && s.text <= phrases[s.phrase]
    && (s.pauseArmed ==> !s.deleting && s.text == phrases[s.phrase])
  }

  /** JavaScript's String.prototype.substring: both bounds are clamped to
      [0, |s|] and swapped when out of order. */
  function Substring(s: string, start: int, end: int): (r: string)
    ensures start == 0 ==> r <= s
    ensures start == 0 ==> |r| == if end < 0 then 0 else if end > |s| then |s| else end
  {
    var a := if start < 0 then 0 else if start > |s| then |s| else start;
    var b := if end < 0 then 0 else if end > |s| then |s| else end;
    if a <= b then s[a..b] else s[b..a]
  }

  /** The delay the effect gives the tick it schedules (app/page.tsx:54). */
  function TickDelay(deleting: bool): nat {
    if deleting then DeletingDelayMs else TypingDelayMs
  }

  /** The timer that is pending in state `s`. */
  function Pending(s: TypewriterState): Schedule {
    if s.pauseArmed then PauseArmed(PauseMs) else NextTick(TickDelay(s.deleting))
  }

  /** One firing of the tick timer. The text moves one character towards the
      full phrase (typing) or towards "" (deleting); the tests for "full" and
      "empty" look at the text as it was before the step. */
  function TickStep(phrases: seq<string>, s: TypewriterState): (r: TypewriterState)
    requires Consistent(phrases, s) && !s.pauseArmed
    ensures Consistent(phrases, r)
  {
    var phrase := phrases[s.phrase];
    var text := if s.deleting then Substring(phrase, 0, |s.text| - 1)
                else Substring(phrase, 0, |s.text| + 1);
    if !s.deleting && s.text == phrase then
      TypewriterState(s.phrase, text, false, true)
    else if s.deleting && s.text == "" then
      TypewriterState((s.phrase + 1) % |phrases|, text, false, false)
    else
      TypewriterState(s.phrase, text, s.deleting, false)
  }

  /** The 1500 ms timer firing: it only switches to deleting. */
  function PauseStep(phrases: seq<string>, s: TypewriterState): (r: TypewriterState)
    requires Consistent(phrases, s) && s.pauseArmed
    ensures Consistent(phrases, r) && r.deleting && !r.pauseArmed
    ensures r.phrase == s.phrase && r.text == s.text == phrases[s.phrase]
  {
    TypewriterState(s.phrase, s.text, true, false)
  }

  /** The host fires whichever single timer is pending. */
  function HostStep(phrases: seq<string>, s: TypewriterState): (r: TypewriterState)
    requires Consistent(phrases, s)
    ensures Consistent(phrases, r)
  {
    if s.pauseArmed then PauseStep(phrases, s) else TickStep(phrases, s)
  }

  /** The React state proper (everything but the pending timer). */
  function Visible(s: TypewriterState): (int, string, bool) {
    (s.phrase, s.text, s.deleting)
  }

  /** A tick re-renders the component (so the effect schedules a new tick)
      exactly when it does not arm the pause: there is always exactly one
      pending timer. */
  lemma TickRerendersUnlessPaused(phrases: seq<string>, s: TypewriterState)
    requires Consistent(phrases, s) && !s.pauseArmed
    ensures Visible(TickStep(phrases, s)) != Visible(s) <==> !TickStep(phrases, s).pauseArmed
  {
  }

  /** A typing tick lengthens the text by exactly the next character of the
      phrase while it is shorter than the phrase, and leaves it unchanged (and
      arms the pause) once it is the whole phrase. */
  lemma TypingTick(phrases: seq<string>, s: TypewriterState)
    requires Consistent(phrases, s) && !s.pauseArmed && !s.deleting
    ensures var phrase, r := phrases[s.phrase], TickStep(phrases, s);
      && r.phrase == s.phrase && !r.deleting
      && (s.text != phrase ==> r.text == s.text + [phrase[|s.text|]] && !r.pauseArmed)
      && (s.text == phrase ==> r.text == s.text && r.pauseArmed)
  {
  }

  /** A deleting tick removes exactly the last character while the text is
      non-empty; on "" it stops deleting and advances the phrase index. */
  lemma DeletingTick(phrases: seq<string>, s: TypewriterState)
    requires Consistent(phrases, s) && !s.pauseArmed && s.deleting
    ensures var r := TickStep(phrases, s);
      && !r.pauseArmed
      && (s.text != "" ==> r.text == s.text[..|s.text| - 1] && r.deleting && r.phrase == s.phrase)
      && (s.text == "" ==> r.text == "" && !r.deleting && r.phrase == (s.phrase + 1) % |phrases|)
  {
  }

  /** The phrase index changes only on a deleting tick whose text was "", and
      then only to the next index modulo the number of phrases. */
  lemma IndexAdvancesOnlyOnWrap(phrases: seq<string>, s: TypewriterState)
    requires Consistent(phrases, s)
    ensures var r := HostStep(phrases, s);
      && (r.phrase != s.phrase ==> r.phrase == (s.phrase + 1) % |phrases|)
      && (r.phrase != s.phrase ==> !s.pauseArmed && s.deleting && s.text == "")
      && (!s.pauseArmed && s.deleting && s.text == "" ==> r.phrase == (s.phrase + 1) % |phrases|)
  {
  }

  /** Only the pause timer turns deleting on, and a tick arms the pause
      exactly when it is typing and the text before it was the whole phrase. */
  lemma OnlyPauseStartsDeleting(phrases: seq<string>, s: TypewriterState)
    requires Consistent(phrases, s) && !s.pauseArmed
    ensures var r := TickStep(phrases, s);
      && (!s.deleting ==> !r.deleting)
      && (r.pauseArmed <==> !s.deleting && s.text == phrases[s.phrase])
  {
  }

  /** The component itself: its state fields and the timer callbacks. */
  class TypewriterEffect {
    const phrases: seq<string>
    var currentPhrase: nat
    var currentText: string
    var isDeleting: bool
    /** The one-shot timer that will set `isDeleting`, once armed. */
    var pauseArmed: bool

    function State(): TypewriterState
      reads this
    {
      TypewriterState(currentPhrase, currentText, isDeleting, pauseArmed)
    }

    predicate Valid()
      reads this
    {
      Consistent(phrases, State())
    }

    /** Mounting: phrase 0, empty text, typing, a tick of 100 ms pending. */
    constructor(phrases: seq<string>)
      requires |phrases| > 0
      ensures this.phrases == phrases
      ensures Valid() && State() == Initial()
    {
      this.phrases := phrases;
      currentPhrase := 0;
      currentText := "";
      isDeleting := false;
      pauseArmed := false;
    }

    /** The tick timer fires. Returns what the host schedules next. */
    method Tick() returns (next: Schedule)
      requires Valid() && !pauseArmed
      modifies this
      ensures Valid()
      ensures State() == TickStep(phrases, old(State()))
      ensures next == Pending(State())
      ensures next == if pauseArmed then PauseArmed(1500) else NextTick(if isDeleting then 50 else 100)
    {
      var phrase := phrases[currentPhrase];
      var before := currentText;
      if isDeleting {
        currentText := Substring(phrase, 0, |before| - 1);
      } else {
        currentText := Substring(phrase, 0, |before| + 1);
      }
      if !isDeleting && before == phrase {
        pauseArmed := true;
        next := PauseArmed(PauseMs);
      } else if isDeleting && before == "" {
        isDeleting := false;
        currentPhrase := (currentPhrase + 1) % |phrases|;
        next := NextTick(TickDelay(isDeleting));
      } else {
        next := NextTick(TickDelay(isDeleting));
      }
    }

    /** The 1500 ms timer fires: start deleting; a deleting tick follows. */
    method FirePause() returns (next: Schedule)
      requires Valid() && pauseArmed
      modifies this
      ensures Valid()
      ensures State() == PauseStep(phrases, old(State()))
      ensures next == Pending(State()) == NextTick(DeletingDelayMs)
    {
      isDeleting := true;
      pauseArmed := false;
      next := NextTick(TickDelay(isDeleting));
    }
  }
}
