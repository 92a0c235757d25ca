# Portfolio analytics, projects and gamification — a Dafny model

This project models the core of a portfolio web site in Dafny. It proves properties of that model. The site has three parts:

- **The Express server** (`server/index.js`).
  - It accepts visitor analytics events, keeps one session per visitor and recomputes an aggregate after every event: clicks per element and per section, the deepest scroll per section, the time per section, and the twenty most clicked elements.
  - It answers filtered queries behind a password-based admin session.
  - It manages the portfolio projects: listing, lookup, create, partial update, delete and reorder.
  - It manages the site settings: profile image and gallery.
  - It filters uploads by name and MIME type.
- **The visitor-side hooks.**
  - The gamification store of `useGamification.tsx` holds scroll progress, unlocked and expanded projects, viewed sections, five achievements, dev mode and Konami progress.
  - The Konami-code listener drives that store.
  - The analytics client of `useAnalytics.ts` holds the shared event queue and one hook's hover and section timers.
- **The admin dashboard.**
  - The click heatmap, the session list, the timeline and the statistics panel.
  - The project form and the site-image editor.

How the model is built:

- State the source updates in place is a `class` whose methods carry `modifies` clauses:
  - the analytics file (`EventStore.AnalyticsLog`);
  - the session map (`SessionGate.Gate`);
  - the projects file (`Projects.ProjectStore`);
  - the zustand store (`Gamification.GamificationStore`);
  - the client queue (`ClientAnalytics.AnalyticsClient`).
- Loops become methods with invariants, proved against a specification function:
  - the aggregation pass;
  - the reorder loop;
  - the heatmap's `forEach`.
- React components that compute values from props are functions.
- JavaScript objects used as dictionaries are association lists in insertion order (`OrderedMap`).
- `Array.prototype.sort` with a comparator is a stable insertion sort (`StableSort.SortDesc`).
- The clock (`Date.now()`) and the random id suffixes are parameters.
- A falsy string or number (`""`, `0`) stands for an absent or falsy field, as the source's `||` and `if (x)` tests read it.

Modules, one per file: `Wrappers`, `Seqs`, `Text`, `OrderedMap`, `StableSort`, `AnalyticsEvents`, `Aggregator`, `SessionGate`, `EventStore`, `Projects`, `SiteSettings`, `Gamification`, `Konami`, `ClientAnalytics`, `ImageUpload`, `SiteImages`, `ProjectForm`, `ClickHeatmap`, `SessionsList`, `TimelineView`, `StatsPanel`.

## Model

| member | source | states |
|---|---|---|
| Aggregator.AggregateOf | server/index.js:188-227 | The specification of the aggregate. AggregateData is proved equal to it, and the Meaning lemmas below state what each field holds. |
| Aggregator.AggregateData | server/index.js:188-227 | The single pass over the log computes exactly the aggregate the specification functions define for the whole log. |
| Aggregator.CountMapKeys | server/index.js:199-207 | A counter built by repeated `(m[k] \|\| 0) + 1` holds each key once, in first-seen order. |
| Aggregator.CountMapCounts | server/index.js:199-207 | Each key's count is its number of occurrences. |
| Aggregator.MaxMapKeys | server/index.js:208-212 | The max-counter holds each sampled key once, in first-seen order. |
| Aggregator.MaxMapBounds | server/index.js:208-212 | Each max-counter value is non-negative, at least every sample for the key, and is 0 or one of those samples. |
| Aggregator.SumMapKeys | server/index.js:213-216 | The sum-counter holds each sampled key once, in first-seen order. |
| Aggregator.SumMapTotals | server/index.js:213-216 | Each sum-counter value is the total of the key's samples. |
| Aggregator.ClicksByElementMeaning | server/index.js:199-203 | `clicksByElement` has distinct keys: exactly the truthy elements of click events. Each maps to the number of clicks on it. |
| Aggregator.ClicksBySectionMeaning | server/index.js:199-207 | The same for `clicksBySection`, keyed by the click's section. |
| Aggregator.ScrollDepthMeaning | server/index.js:208-212 | `scrollDepth[s]` is the deepest depth any scroll event on `s` reported, or 0. The key exists exactly when a scroll on `s` carried a truthy depth. |
| Aggregator.TimeOnSectionMeaning | server/index.js:213-216 | `timeOnSection[s]` is the summed truthy time of the view events on `s`. The key exists exactly when one reported a time. |
| Aggregator.OtherEventsIgnored | server/index.js:198-218 | An event that is not a click, scroll or view leaves the aggregate unchanged. |
| Aggregator.PopularElementsMeaning | server/index.js:221-224 | The popular list has at most twenty entries, most clicked first, each with its own count and none twice. No left-out element has more clicks than a listed one. |
| Aggregator.PopularTiesInOrder | server/index.js:221-224 | Elements with equal counts keep the counter's key order: the sort is stable. |
| Aggregator.PopularElements | server/index.js:221-224 | The popular list. PopularElementsMeaning and PopularTiesInOrder state its meaning. |
| SessionGate.AdminPassword | server/index.js:14 | The password is never empty. A set, non-empty variable is used as given. |
| SessionGate.TokensDistinct | server/index.js:344 | Two login tokens are equal only for the same clock reading and the same suffix. |
| SessionGate.Gate.constructor | server/index.js:19 | The server starts with no sessions. |
| SessionGate.Gate.Login | server/index.js:340-357 | The right password adds a fresh token, which is then authorized. Any other attempt changes nothing. |
| SessionGate.Gate.Verify | server/index.js:360-367 | Authenticated exactly when the cookie names a live token. |
| SessionGate.Gate.Logout | server/index.js:370-377 | The cookie's token is no longer authorized. Every other cookie keeps its status. |
| EventStore.FindSession | server/index.js:272 | The first session with the id, or none when no session has it. |
| EventStore.RecordSession | server/index.js:272-289 | The session list after one accepted event. SessionIdsAreVisitors and SessionIsSummary state what the list holds after any log. |
| EventStore.SessionIdsAreVisitors | server/index.js:272-289 | The session list holds one session per visitor, in the order of each visitor's first event. |
| EventStore.SessionIsSummary | server/index.js:272-289 | A visitor has a session exactly when one of its events was accepted. The session summarises those events: first and latest timestamp, distinct sections in visit order, one interaction per event. |
| EventStore.TotalSessionsAreVisitors | server/index.js:331 | `totalSessions` is the number of distinct visitors. |
| EventStore.Stamped | server/index.js:256-263 | Only `id` and `timestamp` change. A missing one is filled in and a present one is kept. |
| EventStore.StampedIdempotent | server/index.js:256-263 | Stamping an already stamped event changes nothing. |
| EventStore.StampedIdsDistinct | server/index.js:261-263 | Two generated event ids clash only for the same clock reading and suffix. |
| EventStore.QueryIsFilter | server/index.js:311-324 | The chained, optional filters keep exactly the events that match the whole query, in log order. |
| EventStore.NoFiltersKeepAll | server/index.js:311-324 | A query without parameters returns the whole log. |
| EventStore.QueryEvents | server/index.js:311-324 | The chained optional filters. QueryIsFilter and NoFiltersKeepAll state their meaning. |
| EventStore.AnalyticsLog.constructor | server/index.js:62-82 | An empty log, with no sessions and the empty aggregate. |
| EventStore.AnalyticsLog.Track | server/index.js:246-302 | An event without a type or a session id is refused and the log is unchanged. Otherwise the stamped event is appended, and sessions and aggregate stay those of the log. |
| EventStore.AnalyticsLog.TouchSession | server/index.js:272-289 | Only the session list changes, to the list after recording the event. |
| EventStore.AnalyticsLog.Data | server/index.js:305-337 | An authorized request gets the filtered events with the sessions, the aggregate and both totals. Any other request gets 401. |
| Projects.FindProject | server/index.js:398 | The first position holding the id, or none when no project has it. |
| Projects.GetProject | server/index.js:395-407 | A project is found exactly when one has the id. The one returned is stored and has that id. |
| Projects.Listing | server/index.js:382-392 | The listing holds the same projects in ascending `order`, and equal orders keep file order. |
| Projects.MaxOrder | server/index.js:419 | The largest stored order, or -1 when there are no projects. |
| Projects.Created | server/index.js:421-431 | A new project's order is above every stored order, and 0 in an empty store. |
| Projects.CreatedListedLast | server/index.js:382-392 | A project created after the others comes last in the listing. |
| Projects.Merge | server/index.js:455-463 | Each supplied field replaces the stored one and each absent field is kept. A supplied non-array tech stack becomes empty. Id, order and creation time never change, and `updatedAt` is the clock. |
| Projects.MergeNothing | server/index.js:455-463 | An empty update changes only `updatedAt`. |
| Projects.MergeIdempotent | server/index.js:455-463 | Applying the same update twice equals applying it once. |
| Projects.Reordered | server/index.js:502-508 | Reordering keeps the number of projects and their ids. |
| Projects.ReorderedMeaning | server/index.js:502-508 | A project named in the ids takes the position of its last mention. Any other project is unchanged. |
| Projects.ReorderThenList | server/index.js:492-516 | Reordering with every id once, then listing, gives the projects in exactly the requested order. |
| Projects.RoutePutAsRegistered | server/index.js:444 | As the routes are registered, no PUT request reaches the reorder handler. |
| Projects.ReorderIsShadowed | server/index.js:492 | A reorder request is handled as an update of a project with the id "reorder". With no such project it is not found. |
| Projects.RoutePut | server/index.js:444-516 | With the fixed path matched first, exactly the segment "reorder" reaches the reorder handler. Every other segment is an update. |
| Projects.ProjectStore.constructor | server/index.js:85-99 | The projects file starts empty. |
| Projects.ProjectStore.Create | server/index.js:410-441 | Unauthorized or missing title or description: refused and unchanged. Otherwise the new project is appended with an order above all others. |
| Projects.ProjectStore.Update | server/index.js:444-471 | Unauthorized or unknown id: refused and unchanged. Otherwise only the first project with the id is replaced by its merge. |
| Projects.ProjectStore.Delete | server/index.js:474-489 | Not found exactly when no project has the id. Otherwise every project with the id goes and the rest keep their order. |
| Projects.ProjectStore.Reorder | server/index.js:492-516 | A `projectIds` that is not an array is refused. Otherwise the store becomes the reordered list; the loop is proved against that function. |
| SiteSettings.MergeSettings | server/index.js:545-560 | Each supplied setting replaces the stored one and each absent one is kept. |
| SiteSettings.MergeNothing | server/index.js:549-553 | A body with neither field leaves the settings unchanged. |
| SiteSettings.MergeIdempotent | server/index.js:549-553 | Saving the same body twice equals saving it once. |
| SiteSettings.MergeTwice | server/index.js:549-553 | Two saves equal one save of the later value of each field, or the earlier value where the later one is absent. |
| SiteSettings.AcceptUpload | server/index.js:38-48 | multer's file filter. Its meaning is stated by NameCaseIgnored, ExecutableNamePasses and UpperCaseTypeRefused. |
| SiteSettings.NameCaseIgnored | server/index.js:38-48 | The file-name test ignores the case of ASCII letters. |
| SiteSettings.ExecutableNamePasses | server/index.js:39-43 | The pattern is not anchored, so "x.png.exe" with an image MIME type is accepted. |
| SiteSettings.UpperCaseTypeRefused | server/index.js:39-43 | The MIME type is not lower-cased, so "IMAGE/PNG" is refused. |
| Gamification.Unlock | src/hooks/useGamification.tsx:129-137 | Achievements with the id become unlocked at the given time. Every other achievement is unchanged. |
| Gamification.UnlockGrows | src/hooks/useGamification.tsx:129-137 | Unlocking never relocks an achievement and keeps the list of ids. |
| Gamification.UnlockUnknown | src/hooks/useGamification.tsx:129-137 | Unlocking an unknown id changes nothing. |
| Gamification.UnlockedAfterUnlock | src/hooks/useGamification.tsx:129-137 | After unlocking a present id, the store reads it as unlocked. |
| Gamification.UnlockedGrows | src/hooks/useGamification.tsx:86 | An unlocked achievement stays unlocked in every later state. |
| Gamification.Toggle | src/hooks/useGamification.tsx:98-106 | The id is present afterwards exactly when it was absent. Other ids keep their membership, and no duplicate appears. |
| Gamification.ToggleTwice | src/hooks/useGamification.tsx:98-106 | Expanding then collapsing restores the list. Toggling twice always restores membership. |
| Gamification.GamificationStore.constructor | src/hooks/useGamification.tsx:74-80 | Nothing visited, all five achievements locked, dev mode off. |
| Gamification.GamificationStore.UnlockAchievement | src/hooks/useGamification.tsx:129-137 | Only the achievements change, and only by unlocking. |
| Gamification.GamificationStore.SetScrollProgress | src/hooks/useGamification.tsx:82-89 | Progress is recorded; at 90% or more the explorer achievement is unlocked. No other field changes. |
| Gamification.GamificationStore.UnlockProject | src/hooks/useGamification.tsx:91-96 | The project id is appended unless already present, and nothing else changes. |
| Gamification.GamificationStore.ToggleExpandProject | src/hooks/useGamification.tsx:98-114 | The project is toggled. Expanding the third one unlocks deep-diver. |
| Gamification.GamificationStore.ViewSection | src/hooks/useGamification.tsx:116-127 | A new section is appended. Viewing the sixth unlocks completionist. |
| Gamification.GamificationStore.ActivateDevMode | src/hooks/useGamification.tsx:139-147 | Dev mode turns on and secret-finder is unlocked. |
| Gamification.GamificationStore.UpdateKonamiProgress | src/hooks/useGamification.tsx:149 | Only the Konami progress changes, to the given value. |
| Gamification.GamificationStore.ResetKonamiProgress | src/hooks/useGamification.tsx:150 | Only the Konami progress changes, back to 0. |
| Konami.Next | src/components/KonamiCodeListener.tsx:13-29 | The progress goes up by one exactly when the key matches the expected entry ignoring case and the code is not yet complete. Any mismatch, and completion, reset it to 0. It stays a valid index into the code. |
| Konami.ProgressMeaning | src/components/KonamiCodeListener.tsx:13-29 | After any run of keys, the last `progress` keys match the first `progress` entries of the code. |
| Konami.DevModeNeedsFullCode | src/components/KonamiCodeListener.tsx:20-22 | Dev mode comes on only when the last ten keys spell the whole code. |
| Konami.CodePrefixProgress | src/components/KonamiCodeListener.tsx:4-8 | Typing the first `k` entries of the code from a fresh start gives progress `k`. |
| Konami.CodeCompletes | src/components/KonamiCodeListener.tsx:17-22 | The code, typed with an upper-case final "A", completes. |
| Konami.ThirdArrowUpResets | src/components/KonamiCodeListener.tsx:27 | A mismatch restarts from 0 without re-matching a prefix: three ArrowUps leave progress 0. |
| Konami.Completes | src/components/KonamiCodeListener.tsx:17-22 | The key that completes the code. DevModeNeedsFullCode and CodeCompletes state its meaning. |
| Konami.HintVisible | src/components/KonamiCodeListener.tsx:37 | The hint shows for progress 4 to 9. DotsFilled states what it then shows. |
| Konami.Dots | src/components/KonamiCodeListener.tsx:43-48 | One dot per entry of the code. DotsFilled states how many are filled. |
| Konami.DotsFilled | src/components/KonamiCodeListener.tsx:37-48 | While the hint is shown, exactly `progress` of the ten dots are filled. |
| Konami.HandleKeyDown | src/components/KonamiCodeListener.tsx:13-29 | The store's progress becomes the next progress. Dev mode and secret-finder come on exactly on completion, and nothing else changes. |
| ClientAnalytics.FirstKey | src/hooks/useAnalytics.ts:143 | The first key of the timers, or "" when there is none. |
| ClientAnalytics.AnalyticsClient.constructor | src/hooks/useAnalytics.ts:36 | An empty queue and no timers. |
| ClientAnalytics.AnalyticsClient.Full | src/hooks/useAnalytics.ts:78-83 | The queued event is the caller's event with a fresh id, the clock and this hook's session id. |
| ClientAnalytics.AnalyticsClient.Flush | src/hooks/useAnalytics.ts:40-59 | Only the first queued event is sent. On success the whole queue is dropped; on failure it is restored as it was. |
| ClientAnalytics.AnalyticsClient.Track | src/hooks/useAnalytics.ts:77-87 | The completed event is queued last. |
| ClientAnalytics.AnalyticsClient.TrackClick | src/hooks/useAnalytics.ts:90-97 | One click event is queued at the given position, or at (0, 0) when none is given. |
| ClientAnalytics.AnalyticsClient.TrackScroll | src/hooks/useAnalytics.ts:100-106 | One scroll event carrying the depth is queued. |
| ClientAnalytics.AnalyticsClient.TrackForm | src/hooks/useAnalytics.ts:131-138 | One form event carrying the action is queued, with the field as its element. |
| ClientAnalytics.AnalyticsClient.TrackHoverStart | src/hooks/useAnalytics.ts:109-112 | The element's hover timer is (re)started at the clock. |
| ClientAnalytics.AnalyticsClient.TrackHoverEnd | src/hooks/useAnalytics.ts:115-128 | A running timer yields one hover event with the elapsed time, and the timer is removed. Without one, nothing changes. |
| ClientAnalytics.AnalyticsClient.TrackView | src/hooks/useAnalytics.ts:141-159 | A different, running previous section yields one view event with its time spent. The new section is then timed from the clock, and a single timer is kept. |
| ClientAnalytics.OneTimerStep | src/hooks/useAnalytics.ts:141-159 | From a single timer, one view leaves exactly the new section's timer. |
| ImageUpload.SizeBoundInclusive | src/components/admin/ProjectForm.tsx:48-57 | An image of exactly 5 MiB is accepted and one byte more is refused. |
| ImageUpload.NonImageRefused | src/components/admin/SiteImagesManager.tsx:74-81 | A MIME type outside `image/` is refused whatever the size. |
| ImageUpload.ImageSubtypeAllowed | src/components/admin/SiteImagesManager.tsx:74-81 | Any `image/` subtype within 5 MiB is accepted. |
| ImageUpload.SmallerAllowed | src/components/admin/ProjectForm.tsx:48-57 | An accepted file stays accepted at any smaller size. |
| ImageUpload.UploadAllowed | src/components/admin/ProjectForm.tsx:48-57 | The client-side upload test. Its meaning is stated by SizeBoundInclusive, ImageSubtypeAllowed, SmallerAllowed and NonImageRefused. |
| SiteImages.MoveSiteImage | src/components/admin/SiteImagesManager.tsx:139-146 | A target outside the list leaves it unchanged. Otherwise the image and its neighbour trade places; the result is always a permutation. |
| SiteImages.SwapAdjacent | src/components/admin/SiteImagesManager.tsx:142-144 | Splicing an image out and back in one place away equals swapping the two. |
| SiteImages.AddSiteImage | src/components/admin/SiteImagesManager.tsx:120-133 | A non-empty trimmed title and URL append exactly one image and clear the boxes. Anything else changes nothing. |
| SiteImages.AddSiteImageTwice | src/components/admin/SiteImagesManager.tsx:120-133 | Pressing add again after an add does nothing. |
| SiteImages.RemoveSiteImage | src/components/admin/SiteImagesManager.tsx:135-137 | Exactly the images without the id remain; an unknown id leaves the list unchanged. A single image stays unless it has the id. |
| SiteImages.RemoveSiteImageConcat | src/components/admin/SiteImagesManager.tsx:136 | Removal distributes over concatenation. With the one-image case this fixes the result: the images that stay keep their order and their copies. |
| SiteImages.ProfileAfterUpload | src/components/admin/SiteImagesManager.tsx:107-108 | The profile image is replaced only when the upload returned a URL. |
| ProjectForm.AddTech | src/components/admin/ProjectForm.tsx:90-96 | A non-empty, new trimmed entry is appended and the box cleared. Otherwise nothing changes. |
| ProjectForm.AddTechNoDups | src/components/admin/ProjectForm.tsx:92 | Adding never creates a duplicate in the stack. |
| ProjectForm.AddTechClean | src/components/admin/ProjectForm.tsx:91 | Every entry in the stack is non-empty and already trimmed. |
| ProjectForm.AddTechTwice | src/components/admin/ProjectForm.tsx:90-96 | Pressing add twice equals pressing it once. |
| ProjectForm.RemoveTech | src/components/admin/ProjectForm.tsx:98-100 | The entry is gone and all other entries remain. A single entry stays unless it is the one removed. |
| ProjectForm.RemoveTechConcat | src/components/admin/ProjectForm.tsx:99 | Removal distributes over concatenation. With the one-entry case this fixes the result: the entries that stay keep their order. |
| ProjectForm.AddThenRemove | src/components/admin/ProjectForm.tsx:90-100 | Removing a just-added entry restores the stack. |
| ProjectForm.Submit | src/components/admin/ProjectForm.tsx:105-118 | Nothing is saved exactly when the trimmed title or description is empty. Otherwise the fields are trimmed, and an empty link becomes undefined. |
| ProjectForm.SubmitRoundTrip | src/components/admin/ProjectForm.tsx:105-118 | Submitting a saved payload again saves the same payload. |
| ClickHeatmap.ClickEvents | src/components/admin/ClickHeatmap.tsx:46 | Exactly the click events that carry a position. |
| ClickHeatmap.Zone | src/components/admin/ClickHeatmap.tsx:54-55 | The zone is the multiple of 50 at most 49 below the coordinate, negative coordinates included. |
| ClickHeatmap.ZoneUnique | src/components/admin/ClickHeatmap.tsx:54-55 | Only one multiple of 50 has that property. |
| ClickHeatmap.KeyRoundTrip | src/components/admin/ClickHeatmap.tsx:56-62 | Splitting a zone key and parsing its parts gives back the two coordinates. |
| ClickHeatmap.ZoneKeysFromEvents | src/components/admin/ClickHeatmap.tsx:49-56 | Every zone key comes from a counted click of the selected section. |
| ClickHeatmap.BuildClickMap | src/components/admin/ClickHeatmap.tsx:47-58 | The loop builds exactly the counter of the counted clicks' zone keys. |
| ClickHeatmap.ClickMapMeaning | src/components/admin/ClickHeatmap.tsx:47-58 | Each zone appears once, with its number of counted clicks. The counts add up to the number of counted clicks. |
| ClickHeatmap.AllSectionsCountEveryClick | src/components/admin/ClickHeatmap.tsx:151-155 | With no section selected, the zone counts add up to "Total Clicks". |
| ClickHeatmap.ClickDataMeaning | src/components/admin/ClickHeatmap.tsx:61-64 | Every point has numeric coordinates that are multiples of 50 and the zone of a counted click. Its count is that zone's number of clicks. |
| ClickHeatmap.MaxClicks | src/components/admin/ClickHeatmap.tsx:66 | At least 1 and every count, and equal to a count unless it is 1. |
| ClickHeatmap.SectionList | src/components/admin/ClickHeatmap.tsx:69 | Each truthy section of a positioned click, listed once. |
| ClickHeatmap.Render | src/components/admin/ClickHeatmap.tsx:46-69 | The card shows the selected clicks' zones, a maximum that bounds every zone, the total of all positioned clicks and each named section once. |
| SessionsList.Newest | src/components/admin/SessionsList.tsx:40 | The same sessions, newest start first. Sessions that started together keep fetched order. |
| SessionsList.ShortId | src/components/admin/SessionsList.tsx:70 | A prefix of the id, of at most eight characters. |
| SessionsList.FormatDuration | src/components/admin/SessionsList.tsx:42-48 | The duration label. Its meaning is stated by DurationRoundTrip, DurationInMinutes and DurationInSeconds. |
| SessionsList.Seconds | src/components/admin/SessionsList.tsx:43 | The whole seconds elapsed, rounded down. |
| SessionsList.DurationRoundTrip | src/components/admin/SessionsList.tsx:42-48 | Reading a duration label back gives the whole seconds the session lasted. |
| SessionsList.DurationInMinutes | src/components/admin/SessionsList.tsx:44-47 | From a minute on, the label is the whole minutes and the 0-59 seconds left over. |
| SessionsList.DurationInSeconds | src/components/admin/SessionsList.tsx:44 | Below a minute, the label is the seconds alone, without a space. |
| TimelineView.ByType | src/components/admin/TimelineView.tsx:65-67 | "all" keeps every event. Any other choice keeps each event of that type exactly as often as the log holds it, and no other event. |
| TimelineView.Shown | src/components/admin/TimelineView.tsx:63-70 | The specification of the timeline: the first `limit` of the newest-first selection. Its meaning is stated by ShownMeaning and ShownFiltered. |
| TimelineView.Timeline | src/components/admin/TimelineView.tsx:63-70 | The timeline holds at most `limit` events, newest first, drawn from the type selection. No selected event left out is newer than one shown. |
| TimelineView.ShownMeaning | src/components/admin/TimelineView.tsx:63-70 | At most `limit` events, newest first, drawn from the selected ones. No selected event left out is newer than one shown. |
| TimelineView.ShownFiltered | src/components/admin/TimelineView.tsx:65-67 | Every event shown is in the log and of the chosen type. |
| StatsPanel.RoundDiv | src/components/admin/StatsPanel.tsx:53 | The result is within one half of `a / b`. |
| StatsPanel.RoundUnique | src/components/admin/StatsPanel.tsx:53 | Only one integer is that close. |
| StatsPanel.Chart | src/components/admin/StatsPanel.tsx:44-46 | The chart has the same entries as the counter, largest value first. |
| StatsPanel.SectionClicks | src/components/admin/StatsPanel.tsx:44-46 | The section-click chart. SectionClicksMeaning states its meaning. |
| StatsPanel.SectionClicksMeaning | src/components/admin/StatsPanel.tsx:44-46 | One entry per clicked section with its count, most clicked first. |
| StatsPanel.SectionTime | src/components/admin/StatsPanel.tsx:50-55 | The section-time chart. SectionTimeMeaning states its meaning. |
| StatsPanel.SectionTimeMeaning | src/components/admin/StatsPanel.tsx:50-55 | One entry per timed section, in whole seconds within half a second of its milliseconds, longest first. |
| StatsPanel.TopElements | src/components/admin/StatsPanel.tsx:48 | A prefix of the popular list, of at most ten entries. |
| StatsPanel.TopElementsMeaning | src/components/admin/StatsPanel.tsx:48 | At most ten elements, most clicked first, with their own counts. None left out has more clicks. |
| StatsPanel.AverageInteractions | src/components/admin/StatsPanel.tsx:90-92 | 0 without sessions. Otherwise the events per session, rounded to the nearest integer. |
| StatsPanel.TopSection | src/components/admin/StatsPanel.tsx:105-108 | The "Top Section" card. TopSectionMeaning states its meaning. |
| StatsPanel.TopSectionMeaning | src/components/admin/StatsPanel.tsx:105-108 | "N/A" with 0 when nothing was clicked. Otherwise a most clicked section with its count. |
| Text.TrimIdempotent | src/components/admin/ProjectForm.tsx:91 | Trimming a trimmed string changes nothing. |
| Text.IntRoundTrip | src/components/admin/ClickHeatmap.tsx:62 | Parsing a formatted integer gives it back. |
| StableSort.SortDesc | src/components/admin/TimelineView.tsx:69 | The sort is ordered by descending key, is a permutation, and keeps the input order within each key. |
| StableSort.TopKeys | src/components/admin/TimelineView.tsx:70 | A prefix of the sorted sequence holds the largest keys. |

## Left out

- File persistence is not modelled. This covers `readData`, `writeData` and the other file helpers, their JSON encoding, and their fail-open error handling. Each file is the field of a store object that starts empty.
- Concurrency is not modelled: overlapping requests, the async fetches, and the `scheduleFlush` debounce timer. `Flush` takes the fetch's outcome as a parameter.
- The multer disk storage, the size limit of 5 MB and the two upload endpoints' file handling are not modelled. Only the `fileFilter` decision is.
- `Number`, `parseInt` and the template-literal formatting of numbers are restricted to decimal integers (`Text.ParseInt`, `Text.IntToString`). NaN from a non-numeric date parameter is a separate case of the query.
- Positions, depths, scroll progress and durations are integers. Floating-point values are not modelled.
- ASCII-only lower-casing is modelled. JavaScript's full Unicode case mapping is not.
- JavaScript objects put integer-like keys first. The association lists keep plain insertion order.
- The counters of `aggregateData` are plain objects that inherit from `Object.prototype`. A section or element named after an inherited member, such as "constructor" or "toString", starts from that member rather than from 0 and yields a string. A "__proto__" key is never stored. The association lists have neither behaviour: every name starts from 0 and is stored.
- JSON `null` body fields and non-string entries of `projectIds` are not modelled. An absent field is `None` or `""`.
- The unmount cleanup of `useAnalytics` is not modelled.
- Other code outside the core is not modelled: the drag-and-drop list, zustand's `persist` middleware, `sessionStorage`, the DOM, chart rendering, `date-fns` formatting, toasts and the cookie's `maxAge`.
- Konami.HandleKeyDown requires the store's progress to index the code (0..9). The listener reads `KONAMI_CODE[konamiProgress]` and the store only ever holds such values.
- Konami.HandleKeyDown reads the current store progress. The source's callback closes over the last rendered value; a stale closure between renders is not modelled.
- SiteImages.MoveSiteImage requires a valid index, which the editor's buttons always pass.
- ClientAnalytics.AnalyticsClient.TrackView keeps a single timer only from a state with at most one timer under a non-empty name. With several timers it states only the queued event and the new section's start.
- ClientAnalytics.AnalyticsClient.TrackHoverEnd: when one element and section pair's key equals another's (an element containing "-"), the two share a timer. That is modelled as written, not as intended.
- TimelineView.Timeline takes `limit` as a natural number. The menu only offers positive counts.
- StatsPanel.TopSectionMeaning requires that no section key is "". The aggregate never records a falsy section.
- Sorting a copy (`[...sessions].sort`, `[...data.events]`) is a function on values, so the fetched arrays are unchanged by construction.
- The `AnalyticsTracker` component that calls the hooks, the authentication hook, the admin pages and the visual components are not part of this model.

## Findings

| source | as written | input that shows it | evidently intended | confidence | as-written member | corrected member |
|---|---|---|---|---|---|---|
| server/index.js:444 and server/index.js:492 | `PUT /api/projects/:id` is registered before `PUT /api/projects/reorder`, and `:id` matches the segment "reorder". | `PUT /api/projects/reorder` with a list of ids: the update handler looks for a project with the id "reorder" and answers 404. | The reorder handler runs: fixed path first. | high, not executed | Projects.ReorderIsShadowed | Projects.RoutePut |
