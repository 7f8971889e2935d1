/**
 * Runs of the typewriter under a host that always fires the one pending
 * timer: each phrase is typed out, paused on, deleted, and the index moves
 * on; after every phrase has had its turn the animator is back where it was
 * on mount.
 */
module TypewriterCycle {
  import opened Typewriter

  /** `k` host steps from `s`. */
  function HostSteps(phrases: seq<string>, s: TypewriterState, k: nat): (r: TypewriterState)
    requires Consistent(phrases, s)
    ensures Consistent(phrases, r)
    decreases k
  {
    if k == 0 then s else HostSteps(phrases, HostStep(phrases, s), k - 1)
  }

  lemma {:induction false} HostStepsAdd(phrases: seq<string>, s: TypewriterState, a: nat, b: nat)
    requires Consistent(phrases, s)
    ensures HostSteps(phrases, s, a + b) == HostSteps(phrases, HostSteps(phrases, s, a), b)
    decreases a
  {
    if a > 0 {
      HostStepsAdd(phrases, HostStep(phrases, s), a - 1, b);
    }
  }

  /** Host steps one phrase takes: |p| + 1 typing ticks (the last one sees
      the whole phrase and arms the pause), the pause, and |p| + 1 deleting
      ticks (the last one sees "" and advances). */
  function CycleLength(p: string): nat {
    2 * |p| + 3
  }

  /** Host steps for the first `j` phrases. */
  function RotationPrefix(phrases: seq<string>, j: nat): nat
    requires j <= |phrases|
  {
    if j == 0 then 0 else RotationPrefix(phrases, j - 1) + CycleLength(phrases[j - 1])
  }

  function RotationLength(phrases: seq<string>): nat {
    RotationPrefix(phrases, |phrases|)
  }

  /** After k <= |p| typing ticks from an empty text, the first k characters
      of the phrase are shown; in particular after |p| ticks the whole phrase. */
  lemma {:induction false} TypesOut(phrases: seq<string>, i: nat, k: nat)
    requires i < |phrases| && k <= |phrases[i]|
    ensures HostSteps(phrases, Start(i), k) == TypewriterState(i, phrases[i][..k], false, false)
  {
    if k > 0 {
      TypesOut(phrases, i, k - 1);
      var s := HostSteps(phrases, Start(i), k - 1);
      HostStepsAdd(phrases, Start(i), k - 1, 1);
      TypingTick(phrases, s);
      assert phrases[i][..k] == phrases[i][..k - 1] + [phrases[i][k - 1]];
    }
  }

  /** After k <= |p| deleting ticks from the whole phrase, |p| - k
      characters remain. */
  lemma {:induction false} DeletesOut(phrases: seq<string>, i: nat, k: nat)
    requires i < |phrases| && k <= |phrases[i]|
    ensures var p := phrases[i];
      HostSteps(phrases, TypewriterState(i, p, true, false), k) == TypewriterState(i, p[..|p| - k], true, false)
  {
    var p := phrases[i];
    if k > 0 {
      DeletesOut(phrases, i, k - 1);
      var s := HostSteps(phrases, TypewriterState(i, p, true, false), k - 1);
      HostStepsAdd(phrases, TypewriterState(i, p, true, false), k - 1, 1);
      DeletingTick(phrases, s);
      assert p[..|p| - (k - 1)][..|p| - k] == p[..|p| - k];
    }
  }

  lemma HostStepsSucc(phrases: seq<string>, s: TypewriterState, a: nat)
    requires Consistent(phrases, s)
    ensures HostSteps(phrases, s, a + 1) == HostStep(phrases, HostSteps(phrases, s, a))
  {
    HostStepsAdd(phrases, s, a, 1);
  }

  /** Typing out the phrase, the extra tick that sees it whole and arms the
      pause, and the pause firing: |p| + 2 steps. */
  lemma TypeAndPause(phrases: seq<string>, i: nat)
    requires i < |phrases|
    ensures HostSteps(phrases, Start(i), |phrases[i]| + 2) == TypewriterState(i, phrases[i], true, false)
  {
    var p := phrases[i];
    TypesOut(phrases, i, |p|);
    assert p[..|p|] == p;
    var full := TypewriterState(i, p, false, false);
    HostStepsSucc(phrases, Start(i), |p|);
    TypingTick(phrases, full);
    HostStepsSucc(phrases, Start(i), |p| + 1);
  }

  /** Deleting the phrase and the extra tick that sees "" and moves on:
      |p| + 1 steps. */
  lemma DeleteAndWrap(phrases: seq<string>, i: nat)
    requires i < |phrases|
    ensures HostSteps(phrases, TypewriterState(i, phrases[i], true, false), |phrases[i]| + 1) == Start((i + 1) % |phrases|)
  {
    var p := phrases[i];
    DeletesOut(phrases, i, |p|);
    var empty := TypewriterState(i, "", true, false);
    assert p[..0] == "";
    HostStepsSucc(phrases, TypewriterState(i, p, true, false), |p|);
    DeletingTick(phrases, empty);
  }

  /** One phrase's round trip: from (i, "", typing) the animator types the
      phrase, pauses, deletes it and ends at (i + 1 mod n, "", typing). */
  lemma PhraseCycle(phrases: seq<string>, i: nat)
    requires i < |phrases|
    ensures HostSteps(phrases, Start(i), CycleLength(phrases[i])) == Start((i + 1) % |phrases|)
  {
    var p := phrases[i];
    TypeAndPause(phrases, i);
    DeleteAndWrap(phrases, i);
    HostStepsAdd(phrases, Start(i), |p| + 2, |p| + 1);
  }

  /** After the first j phrases have each had their turn, the animator is at
      the start of phrase j. */
  lemma {:induction false} RotationReaches(phrases: seq<string>, j: nat)
    requires 0 < |phrases| && j <= |phrases|
    ensures HostSteps(phrases, Initial(), RotationPrefix(phrases, j)) == Start(j % |phrases|)
  {
    var n := |phrases|;
    if j == 0 {
      assert j % n == 0;
    } else {
      var before := RotationPrefix(phrases, j - 1);
      var cycle := CycleLength(phrases[j - 1]);
      RotationReaches(phrases, j - 1);
      assert (j - 1) % n == j - 1;
      assert HostSteps(phrases, Initial(), before) == Start(j - 1);
      HostStepsAdd(phrases, Initial(), before, cycle);
      PhraseCycle(phrases, j - 1);
      assert RotationPrefix(phrases, j) == before + cycle;
    }
  }

  /** A full rotation through every phrase returns the animator to its state
      on mount: phrase 0, empty text, typing. */
  lemma FullRotation(phrases: seq<string>)
    requires 0 < |phrases|
    ensures HostSteps(phrases, Initial(), RotationLength(phrases)) == Initial()
  {
    RotationReaches(phrases, |phrases|);
  }

  /** The animation is periodic: any number of full rotations ends at the
      initial state. */
  lemma {:induction false} RotationsRepeat(phrases: seq<string>, m: nat)
    requires 0 < |phrases|
    ensures HostSteps(phrases, Initial(), m * RotationLength(phrases)) == Initial()
  {
    if m > 0 {
      RotationsRepeat(phrases, m - 1);
      FullRotation(phrases);
      HostStepsAdd(phrases, Initial(), (m - 1) * RotationLength(phrases), RotationLength(phrases));
    }
  }

  /** The site's own phrases: one rotation through all five takes 199
      host steps. */
  lemma SiteRotation()
    ensures RotationLength(Phrases) == 199
    ensures HostSteps(Phrases, Initial(), RotationLength(Phrases)) == Initial()
  {
    assert RotationPrefix(Phrases, 1) == 35;
    assert RotationPrefix(Phrases, 2) == 35 + 31;
    assert RotationPrefix(Phrases, 3) == 66 + 39;
    assert RotationPrefix(Phrases, 4) == 105 + 41;
    FullRotation(Phrases);
  }

  /** The two-phrase trace ["Go", "Rust"]: "G", "Go", the pause is armed,
      deleting starts, "G", "", and phrase 1 begins. */
  lemma GoRustTrace()
    ensures var ps := ["Go", "Rust"];
      && HostSteps(ps, Initial(), 1) == TypewriterState(0, "G", false, false)
      && HostSteps(ps, Initial(), 2) == TypewriterState(0, "Go", false, false)
      && HostSteps(ps, Initial(), 3) == TypewriterState(0, "Go", false, true)
      && HostSteps(ps, Initial(), 4) == TypewriterState(0, "Go", true, false)
      && HostSteps(ps, Initial(), 5) == TypewriterState(0, "G", true, false)
      && HostSteps(ps, Initial(), 6) == TypewriterState(0, "", true, false)
      && HostSteps(ps, Initial(), 7) == Start(1)
  {
  }
}
