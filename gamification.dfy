/**
 * The visitor's gamification store of src/hooks/useGamification.tsx: scroll progress,
 * unlocked and expanded projects, viewed sections, five achievements, dev mode and the
 * Konami-code progress. Each action replaces some fields of the store; the clock behind
 * `unlockedAt` is a parameter.
 */
module Gamification {
  import opened Wrappers
  import opened Seqs

  datatype Achievement = Achievement(id: string, name: string, description: string, icon: string, unlocked: bool, unlockedAt: Option<int>)

  const Explorer := "explorer"
  const DeepDiver := "deep-diver"
  const Completionist := "completionist"
  const SecretFinder := "secret-finder"
  const TechEnthusiast := "tech-enthusiast"

  /** Scroll progress (in percent) at which the explorer achievement unlocks. */
  const ExplorerThreshold := 90
  /** Expanded case studies at which the deep-diver achievement unlocks. */
  const DeepDiverThreshold := 3
  /** Viewed sections at which the completionist achievement unlocks. */
  const CompletionistThreshold := 6

  const InitialAchievements: seq<Achievement> := [
    Achievement(Explorer, "Explorer", "Scrolled through 90% of the portfolio", "\U{1F5FA}\U{FE0F}", false, None),
    Achievement(DeepDiver, "Deep Diver", "Opened 3+ full case studies", "\U{1F93F}", false, None),
    Achievement(Completionist, "Completionist", "Viewed all sections", "\U{2B50}", false, None),
    Achievement(SecretFinder, "Secret Finder", "Discovered a hidden Easter egg", "\U{1F95A}", false, None),
    Achievement(TechEnthusiast, "Tech Enthusiast", "Explored the tech stack details", "\U{1F4BB}", false, None)
  ]

  function Ids(achs: seq<Achievement>): (ids: seq<string>)
    ensures |ids| == |achs| && forall i :: 0 <= i < |achs| ==> ids[i] == achs[i].id
  {
    seq(|achs|, i requires 0 <= i < |achs| => achs[i].id)
  }

  /** `achievements.find(a => a.id === id)?.unlocked`, with a missing achievement read as locked. */
  function Unlocked(achs: seq<Achievement>, id: string): bool
    decreases |achs|
  {
    if achs == [] then false
    else if achs[0].id == id then achs[0].unlocked
    else Unlocked(achs[1..], id)
  }

  /** The `unlockAchievement` map: every achievement with the id becomes unlocked at `now`; nothing else changes. */
  function Unlock(achs: seq<Achievement>, id: string, now: int): (r: seq<Achievement>)
    ensures |r| == |achs|
    ensures forall i :: 0 <= i < |achs| && achs[i].id != id ==> r[i] == achs[i]
    ensures forall i :: 0 <= i < |achs| && achs[i].id == id ==> r[i].unlocked && r[i].unlockedAt == Some(now)
    decreases |achs|
  {
    if achs == [] then []
    else
      var head := if achs[0].id == id then achs[0].(unlocked := true, unlockedAt := Some(now)) else achs[0];
      var r := [head] + Unlock(achs[1..], id, now);
      assert forall i :: 1 <= i < |achs| ==> r[i] == Unlock(achs[1..], id, now)[i - 1];
      r
  }

  /** No achievement is ever locked again: the list keeps its ids and unlocked ones stay unlocked. */
  predicate Grows(before: seq<Achievement>, after: seq<Achievement>) {
    && |after| == |before|
    && forall i :: 0 <= i < |before| ==> after[i].id == before[i].id && (before[i].unlocked ==> after[i].unlocked)
  }

  lemma UnlockGrows(achs: seq<Achievement>, id: string, now: int)
    ensures Grows(achs, Unlock(achs, id, now))
  {
  }

  /** Unlocking an id that no achievement has changes nothing. */
  lemma UnlockUnknown(achs: seq<Achievement>, id: string, now: int)
    requires id !in Ids(achs)
    ensures Unlock(achs, id, now) == achs
  {
    var r := Unlock(achs, id, now);
    assert forall i :: 0 <= i < |achs| ==> achs[i].id != id by {
      forall i | 0 <= i < |achs| ensures achs[i].id != id {
        assert Ids(achs)[i] == achs[i].id;
      }
    }
  }

  /** After unlocking an id that is present, the store reads it as unlocked. */
  lemma {:induction false} UnlockedAfterUnlock(achs: seq<Achievement>, id: string, now: int)
    requires id in Ids(achs)
    ensures Unlocked(Unlock(achs, id, now), id)
    decreases |achs|
  {
    if achs[0].id != id {
      assert Ids(achs[1..]) == Ids(achs)[1..];
      assert Unlock(achs, id, now)[1..] == Unlock(achs[1..], id, now);
      UnlockedAfterUnlock(achs[1..], id, now);
    }
  }

  /** An achievement read as unlocked stays so in any list that grew from it. */
  lemma {:induction false} UnlockedGrows(before: seq<Achievement>, after: seq<Achievement>, id: string)
    requires Grows(before, after) && Unlocked(before, id)
    ensures Unlocked(after, id)
    decreases |before|
  {
    if before[0].id != id {
      UnlockedGrows(before[1..], after[1..], id);
    }
  }

  /** `toggleExpandProject`'s list: drop the id when present, else append it. */
  function Toggle(s: seq<string>, x: string): (r: seq<string>)
    ensures x in r <==> x !in s
    ensures forall y :: y != x ==> (y in r <==> y in s)
    ensures NoDups(s) ==> NoDups(r)
  {
    if x in s then RemoveAll(s, x) else s + [x]
  }

  /** Expanding then collapsing a project restores the list exactly; collapsing then expanding restores membership. */
  lemma ToggleTwice(s: seq<string>, x: string)
    ensures x !in s ==> Toggle(Toggle(s, x), x) == s
    ensures forall y :: y in Toggle(Toggle(s, x), x) <==> y in s
  {
    if x !in s {
      RemoveAllAppend(s, x);
    }
  }

  /** The zustand store behind `useGamification`. */
  class GamificationStore {
    var scrollProgress: int
    var unlockedProjects: seq<string>
    var expandedProjects: seq<string>
    var sectionsViewed: seq<string>
    var achievements: seq<Achievement>
    var devModeActive: bool
    var konamiProgress: int

    /** The lists are duplicate-free and the achievements are the five of the initial list. */
    ghost predicate Valid()
      reads this
    {
      && NoDups(unlockedProjects) && NoDups(expandedProjects) && NoDups(sectionsViewed)
      && Ids(achievements) == Ids(InitialAchievements)
    }

    /** The initial state: nothing visited, every achievement locked, dev mode off. */
    constructor ()
      ensures Valid()
      ensures scrollProgress == 0 && konamiProgress == 0 && !devModeActive
      ensures unlockedProjects == [] && expandedProjects == [] && sectionsViewed == []
      ensures achievements == InitialAchievements
      ensures forall i :: 0 <= i < |achievements| ==> !achievements[i].unlocked
    {
      scrollProgress := 0;
      unlockedProjects := [];
      expandedProjects := [];
      sectionsViewed := [];
      achievements := InitialAchievements;
      devModeActive := false;
      konamiProgress := 0;
    }

    /** `unlockAchievement`: unlocks the achievement with the id, stamping `unlockedAt`. */
    method UnlockAchievement(id: string, now: int)
      requires Valid()
      modifies this
      ensures Valid()
      ensures achievements == Unlock(old(achievements), id, now)
      ensures Grows(old(achievements), achievements)
      ensures scrollProgress == old(scrollProgress) && konamiProgress == old(konamiProgress) && devModeActive == old(devModeActive)
      ensures unlockedProjects == old(unlockedProjects) && expandedProjects == old(expandedProjects)
      ensures sectionsViewed == old(sectionsViewed)
    {
      UnlockGrows(achievements, id, now);
      achievements := Unlock(achievements, id, now);
      assert Ids(achievements) == Ids(old(achievements));
    }

    /** `setScrollProgress`: records the progress; at 90 or more the explorer achievement unlocks. */
    method SetScrollProgress(progress: int, now: int)
      requires Valid()
      modifies this
      ensures Valid()
      ensures scrollProgress == progress
      ensures achievements ==
        if progress >= ExplorerThreshold && !Unlocked(old(achievements), Explorer)
        then Unlock(old(achievements), Explorer, now) else old(achievements)
      ensures progress >= ExplorerThreshold ==> Unlocked(achievements, Explorer)
      ensures Grows(old(achievements), achievements)
      ensures konamiProgress == old(konamiProgress) && devModeActive == old(devModeActive)
      ensures unlockedProjects == old(unlockedProjects) && expandedProjects == old(expandedProjects)
      ensures sectionsViewed == old(sectionsViewed)
    {
      scrollProgress := progress;
      if progress >= ExplorerThreshold && !Unlocked(achievements, Explorer) {
        assert Explorer in Ids(achievements) by { assert Ids(InitialAchievements)[0] == Explorer; }
        UnlockedAfterUnlock(achievements, Explorer, now);
        UnlockAchievement(Explorer, now);
      }
    }

    /** `unlockProject`: the id is appended unless it is already there. */
    method UnlockProject(id: string)
      requires Valid()
      modifies this
      ensures Valid()
      ensures unlockedProjects == AppendIfAbsent(old(unlockedProjects), id)
      ensures scrollProgress == old(scrollProgress) && konamiProgress == old(konamiProgress) && devModeActive == old(devModeActive)
      ensures achievements == old(achievements) && expandedProjects == old(expandedProjects)
      ensures sectionsViewed == old(sectionsViewed)
    {
      if id !in unlockedProjects {
        unlockedProjects := unlockedProjects + [id];
      }
    }

    /** `toggleExpandProject`: collapses or expands; a third expanded project unlocks deep-diver. */
    method ToggleExpandProject(id: string, now: int)
      requires Valid()
      modifies this
      ensures Valid()
      ensures expandedProjects == Toggle(old(expandedProjects), id)
      ensures achievements ==
        if id !in old(expandedProjects) && |old(expandedProjects)| + 1 >= DeepDiverThreshold
          && !Unlocked(old(achievements), DeepDiver)
        then Unlock(old(achievements), DeepDiver, now) else old(achievements)
      ensures id !in old(expandedProjects) && |expandedProjects| >= DeepDiverThreshold ==> Unlocked(achievements, DeepDiver)
      ensures Grows(old(achievements), achievements)
      ensures scrollProgress == old(scrollProgress) && konamiProgress == old(konamiProgress) && devModeActive == old(devModeActive)
      ensures unlockedProjects == old(unlockedProjects) && sectionsViewed == old(sectionsViewed)
    {
      var expanded: seq<string>;
      if id in expandedProjects {
        expanded := RemoveAll(expandedProjects, id);
      } else {
        expanded := expandedProjects + [id];
        if |expanded| >= DeepDiverThreshold && !Unlocked(achievements, DeepDiver) {
          assert DeepDiver in Ids(achievements) by { assert Ids(InitialAchievements)[1] == DeepDiver; }
          UnlockedAfterUnlock(achievements, DeepDiver, now);
          UnlockAchievement(DeepDiver, now);
        }
      }
      expandedProjects := expanded;
    }

    /** `viewSection`: a new section is appended; the sixth unlocks completionist. */
    method ViewSection(id: string, now: int)
      requires Valid()
      modifies this
      ensures Valid()
      ensures sectionsViewed == AppendIfAbsent(old(sectionsViewed), id)
      ensures achievements ==
        if id !in old(sectionsViewed) && |old(sectionsViewed)| + 1 >= CompletionistThreshold
          && !Unlocked(old(achievements), Completionist)
        then Unlock(old(achievements), Completionist, now) else old(achievements)
      ensures id !in old(sectionsViewed) && |sectionsViewed| >= CompletionistThreshold ==> Unlocked(achievements, Completionist)
      ensures Grows(old(achievements), achievements)
      ensures scrollProgress == old(scrollProgress) && konamiProgress == old(konamiProgress) && devModeActive == old(devModeActive)
      ensures unlockedProjects == old(unlockedProjects) && expandedProjects == old(expandedProjects)
    {
      if id !in sectionsViewed {
        var sections := sectionsViewed + [id];
        sectionsViewed := sections;
        if |sections| >= CompletionistThreshold && !Unlocked(achievements, Completionist) {
          assert Completionist in Ids(achievements) by { assert Ids(InitialAchievements)[2] == Completionist; }
          UnlockedAfterUnlock(achievements, Completionist, now);
          UnlockAchievement(Completionist, now);
        }
      }
    }

    /** `activateDevMode`: dev mode on, and secret-finder unlocked. */
    method ActivateDevMode(now: int)
      requires Valid()
      modifies this
      ensures Valid()
      ensures devModeActive
      ensures achievements ==
        if !Unlocked(old(achievements), SecretFinder) then Unlock(old(achievements), SecretFinder, now) else old(achievements)
      ensures Unlocked(achievements, SecretFinder)
      ensures Grows(old(achievements), achievements)
      ensures scrollProgress == old(scrollProgress) && konamiProgress == old(konamiProgress)
      ensures unlockedProjects == old(unlockedProjects) && expandedProjects == old(expandedProjects)
      ensures sectionsViewed == old(sectionsViewed)
    {
      devModeActive := true;
      if !Unlocked(achievements, SecretFinder) {
        assert SecretFinder in Ids(achievements) by { assert Ids(InitialAchievements)[3] == SecretFinder; }
        UnlockedAfterUnlock(achievements, SecretFinder, now);
        UnlockAchievement(SecretFinder, now);
      }
    }

    /** `updateKonamiProgress`. */
    method UpdateKonamiProgress(progress: int)
      modifies this
      ensures konamiProgress == progress
      ensures scrollProgress == old(scrollProgress) && devModeActive == old(devModeActive) && achievements == old(achievements)
      ensures unlockedProjects == old(unlockedProjects) && expandedProjects == old(expandedProjects)
      ensures sectionsViewed == old(sectionsViewed)
    {
      konamiProgress := progress;
    }

    /** `resetKonamiProgress`. */
    method ResetKonamiProgress()
      modifies this
      ensures konamiProgress == 0
      ensures scrollProgress == old(scrollProgress) && devModeActive == old(devModeActive) && achievements == old(achievements)
      ensures unlockedProjects == old(unlockedProjects) && expandedProjects == old(expandedProjects)
      ensures sectionsViewed == old(sectionsViewed)
    {
      konamiProgress := 0;
    }
  }
}
