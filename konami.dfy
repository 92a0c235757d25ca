/**
 * The Konami-code listener of src/components/KonamiCodeListener.tsx: each key either
 * advances the store's `konamiProgress` through the ten-key code or resets it, the tenth
 * key switches dev mode on, and a hint with one dot per matched key shows mid-way.
 */
module Konami {
  import opened Seqs
  import opened Text
  import opened Gamification

  const KonamiCode: seq<string> := [
    "ArrowUp", "ArrowUp", "ArrowDown", "ArrowDown",
    "ArrowLeft", "ArrowRight", "ArrowLeft", "ArrowRight",
    "b", "a"
  ]

  /** `key.toLowerCase() === expectedKey.toLowerCase()`. */
  predicate KeyMatches(key: string, expected: string) {
    ToLower(key) == ToLower(expected)
  }

  /** The key completes the code: it matches the last entry and the nine before it were matched. */
  predicate Completes(progress: nat, key: string)
    requires progress < |KonamiCode|
  {
    progress + 1 == |KonamiCode| && KeyMatches(key, KonamiCode[progress])
  }

  /** The progress after one key: one more on a match, back to 0 on a mismatch or on completion. */
  function Next(progress: nat, key: string): (r: nat)
    requires progress < |KonamiCode|
    ensures r < |KonamiCode|
    ensures r == 0 || r == progress + 1
    ensures r == progress + 1 <==> KeyMatches(key, KonamiCode[progress]) && progress + 1 < |KonamiCode|
    ensures !KeyMatches(key, KonamiCode[progress]) ==> r == 0
  {
    if KeyMatches(key, KonamiCode[progress]) then
      if progress + 1 == |KonamiCode| then 0 else progress + 1
    else 0
  }

  /** The progress after a run of keys pressed from a fresh start. */
  function ProgressAfter(keys: seq<string>): (p: nat)
    ensures p < |KonamiCode|
    decreases |keys|
  {
    if keys == [] then 0 else Next(ProgressAfter(keys[..|keys| - 1]), keys[|keys| - 1])
  }

  /** The last `p` keys match the first `p` entries of the code. */
  predicate Spells(keys: seq<string>, p: nat)
    requires p <= |KonamiCode|
  {
    p <= |keys| && forall i :: 0 <= i < p ==> KeyMatches(keys[|keys| - p + i], KonamiCode[i])
  }

  /** The progress counts exactly the matched keys that end the run. */
  lemma {:induction false} ProgressMeaning(keys: seq<string>)
    ensures Spells(keys, ProgressAfter(keys))
    decreases |keys|
  {
    if keys != [] {
      var init := keys[..|keys| - 1];
      ProgressMeaning(init);
      var p0 := ProgressAfter(init);
      if ProgressAfter(keys) == p0 + 1 {
        forall i | 0 <= i < p0 + 1 ensures KeyMatches(keys[|keys| - (p0 + 1) + i], KonamiCode[i]) {
          if i < p0 {
            assert keys[|keys| - (p0 + 1) + i] == init[|init| - p0 + i];
          }
        }
      }
    }
  }

  /** Dev mode comes on only when the last ten keys spell the whole code. */
  lemma DevModeNeedsFullCode(keys: seq<string>, key: string)
    requires Completes(ProgressAfter(keys), key)
    ensures Spells(keys + [key], |KonamiCode|)
  {
    ProgressMeaning(keys);
    var s := keys + [key];
    var p := ProgressAfter(keys);
    forall i | 0 <= i < |KonamiCode| ensures KeyMatches(s[|s| - |KonamiCode| + i], KonamiCode[i]) {
      if i < p {
        assert s[|s| - |KonamiCode| + i] == keys[|keys| - p + i];
      }
    }
  }

  /** Each entry of the code, pressed in turn from a fresh start, advances the progress by one. */
  lemma {:induction false} CodePrefixProgress(k: nat)
    requires k < |KonamiCode|
    ensures ProgressAfter(KonamiCode[..k]) == k
  {
    if k > 0 {
      assert KonamiCode[..k][..k - 1] == KonamiCode[..k - 1];
      CodePrefixProgress(k - 1);
    }
  }

  /** Typing the code, with any letter case on the last key, completes it. */
  lemma CodeCompletes()
    ensures Completes(ProgressAfter(KonamiCode[..|KonamiCode| - 1]), "A")
  {
    CodePrefixProgress(|KonamiCode| - 1);
    assert ToLower("A") == ToLower("a");
  }

  /** A mismatch starts over with no partial re-match: a third ArrowUp leaves the progress at 0, not 2. */
  lemma ThirdArrowUpResets()
    ensures ProgressAfter(["ArrowUp", "ArrowUp", "ArrowUp"]) == 0
  {
    var keys := ["ArrowUp", "ArrowUp", "ArrowUp"];
    assert keys[..2] == KonamiCode[..2];
    CodePrefixProgress(2);
    assert ToLower("ArrowUp") != ToLower("ArrowDown") by {
      assert ToLower("ArrowUp")[5] != ToLower("ArrowDown")[5];
    }
  }

  /** The hint shows once more than three keys are matched. */
  predicate HintVisible(progress: int) {
    progress > 3 && progress < |KonamiCode|
  }

  /** The hint's dots, one per entry of the code, filled for the matched ones. */
  function Dots(progress: int): (r: seq<bool>)
    ensures |r| == |KonamiCode|
  {
    seq(|KonamiCode|, i requires 0 <= i < |KonamiCode| => i < progress)
  }

  lemma {:induction false} FilledCount(n: nat, progress: nat)
    requires progress <= n
    ensures Occurrences(seq(n, i requires 0 <= i < n => i < progress), true) == progress
    decreases n
  {
    var s := seq(n, i requires 0 <= i < n => i < progress);
    if n > 0 {
      var init := seq(n - 1, i requires 0 <= i < n - 1 => i < progress);
      assert s[..n - 1] == init;
      if progress == n {
        assert Occurrences(s, true) == Occurrences(init, true) + 1;
        FilledCount(n - 1, progress - 1);
        assert init == seq(n - 1, i requires 0 <= i < n - 1 => i < progress - 1);
        FilledCount(n - 1, n - 1);
      } else {
        FilledCount(n - 1, progress);
      }
    }
  }

  /** The visible hint fills exactly `progress` dots. */
  lemma DotsFilled(progress: int)
    requires HintVisible(progress)
    ensures Occurrences(Dots(progress), true) == progress
  {
    FilledCount(|KonamiCode|, progress);
  }

  /** `handleKeyDown` for a key pressed while the store's progress indexes the code. */
  method HandleKeyDown(store: GamificationStore, key: string, now: int)
    requires store.Valid() && 0 <= store.konamiProgress < |KonamiCode|
    modifies store
    ensures store.Valid()
    ensures store.konamiProgress == Next(old(store.konamiProgress), key)
    ensures store.devModeActive == (old(store.devModeActive) || Completes(old(store.konamiProgress), key))
    ensures Completes(old(store.konamiProgress), key) ==> Unlocked(store.achievements, SecretFinder)
    ensures !Completes(old(store.konamiProgress), key) ==> store.achievements == old(store.achievements)
    ensures Grows(old(store.achievements), store.achievements)
    ensures store.scrollProgress == old(store.scrollProgress) && store.sectionsViewed == old(store.sectionsViewed)
    ensures store.unlockedProjects == old(store.unlockedProjects) && store.expandedProjects == old(store.expandedProjects)
  {
    var progress := store.konamiProgress;
    var expected := KonamiCode[progress];
    if ToLower(key) == ToLower(expected) {
      var next := progress + 1;
      if next == |KonamiCode| {
        store.ActivateDevMode(now);
        store.ResetKonamiProgress();
      } else {
        store.UpdateKonamiProgress(next);
      }
    } else {
      store.ResetKonamiProgress();
    }
  }
}
