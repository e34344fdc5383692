# Side Hustle Starter: a verified model of the app's logic

The app is a small React site for new entrepreneurs. It has guides written in
MDX, a five-step "Starter Path" whose progress lives in local storage, a
resource hub, a quiz and a chat coach backed by a serverless function. This
project models, in Dafny, the parts of the app that make decisions:

- the Starter Path progress store (`progress.dfy`);
- the chat request handler: the validation order, the assembly of the
  three-message prompt and the mapping of the completion API's outcome to a
  response (`ask_coach.dfy`, over the JSON values of `js_values.dfy`);
- the guide page's table-of-contents id generator and the Starter ribbon
  (`resource_detail.dfy`);
- the checklist (`checklist.dfy`);
- the quiz (`funnel_quiz.dfy`);
- the guide registry (`guides.dfy`);
- the resource list (`resources.dfy`);
- the hub's tabs, filter and banner (`resource_hub.dfy`);
- the completion toast (`progress_effects.dfy`);
- the header bar (`starter_header_bar.dfy`).

Shared pieces are in their own modules:

- `strings.dfy`: `trim`, ASCII `toLowerCase`, `replace(/class+/g, "-")`,
  `includes`, `String(n)` and the default sort order on strings;
- `seqs.dfy`: `indexOf`, de-duplication through a `Set`, subsequences and
  `flatMap`;
- `sorting.dfy`: a stable sort by a chain of string keys;
- `rounding.dfy`: `Math.round(done / total * 100)` as exact integer
  arithmetic, rounding halves up (which differs from the floating-point
  result in a few cases, listed under "Left out");
- `wrappers.dfy`: `Option`.

State that the code changes in place is modelled as a class with fields:

- the progress store's storage cell;
- the checklist's `checked` map;
- the quiz's `step` and `answers`;
- the registry's `guides` object;
- the hub's banner flag;
- the toast's `open` and `wasCompleteRef`;
- the header bar's `seen` flag and its stored copy.

Loops become methods with invariants:

- the TOC `forEach` with its counter `while`;
- the registry's `for…in`.

Pure expressions become functions, and what they promise is stated as lemmas.

Inputs that come from outside become parameters:

- the parsed request body;
- the API key;
- the completion API's outcome;
- the current path;
- what local storage holds;
- whether the hub's `setItem` returns normally;
- the list of MDX modules.

## Model

| member | source | states |
|---|---|---|
| Progress.Load | src/lib/progress.js:14-21 | a stored object is read as it is; no local storage, no entry, unparsable text, a falsy value, a truthy primitive or an array all read as the empty map |
| Progress.FirstUndone | src/lib/progress.js:52-55 | nothing is returned iff every slug is done; otherwise the result is the first slug that is not done, and every slug before it is done |
| Progress.CountDone | src/lib/progress.js:57-59 | the number of done slugs is at most the number of slugs, and equals it iff every slug is done |
| Progress.NextIncomplete | src/lib/progress.js:52-55 | there is no next step iff all five Starter slugs are done; a next step is a Starter slug that is not done (FirstUndone gives the first such) |
| Progress.PercentComplete | src/lib/progress.js:57-62 | `percentComplete()` is never above 100 |
| Progress.IsComplete | src/lib/progress.js:86-88 | `percentComplete() >= 100`; CompleteIffFullIffNoNext shows it is "100 percent" and "no next step" |
| Progress.PercentIsTwentyPerStep | src/lib/progress.js:57-62 | the percentage is exactly 20 per done step, so it lies in 0..100 |
| Progress.CompleteIffFullIffNoNext | src/lib/progress.js:52-88 | `isComplete()` holds iff the percentage is 100 iff there is no next incomplete step |
| Progress.CountDoneMonotone | src/lib/progress.js:59 | marking a slug done never lowers the count of done slugs |
| Progress.PercentMonotone | src/lib/progress.js:57-62 | marking a slug done never lowers the percentage |
| Progress.AgreeingMapsCountAlike | src/lib/progress.js:52-62 | two maps that agree on the listed slugs give the same count and the same first undone slug |
| Progress.OnlyStarterKeysMatter | src/lib/progress.js:52-62 | keys outside the five Starter slugs affect neither the percentage nor the next step |
| Progress.EmptyProgress | src/lib/progress.js:48-62 | the empty store is at 0%, not complete, with the first slug next |
| Progress.StarterSlugsDistinct | src/lib/progress.js:5-11 | the five Starter slugs are pairwise different |
| Progress.ProgressStore.SetDone | src/lib/progress.js:14-46 | where the loaded value is an object and local storage takes the write, the store becomes the loaded map with the one key set and `isDone(slug)` is the new value; a truthy primitive makes the assignment throw and an array drops the named key, and with no local storage nothing is written, all three leaving the store as it was; it throws exactly for a primitive; no other slug changes status |
| Progress.ProgressStore.ResetProgress | src/lib/progress.js:23-50 | the store holds the empty object (nothing is written without local storage): no slug is done, the percentage is 0 and the first slug is next |
| Progress.ProgressStore.MarkDone | src/lib/progress.js:42-46 | `setDone(slug)` with the default value true: the store gets the key set where the write lands, stays as it was otherwise, and the percentage never goes down |
| Progress.ProgressStore.constructor | src/lib/progress.js:14-21 | the store starts with whatever local storage holds |
| Progress.ProgressStore.IsDone | src/lib/progress.js:37-40 | `!!loadProgress()[slug]`: the slug's flag in the loaded map, false when absent (definition; SetDone states how it changes) |
| Rounding.RoundPercent | src/lib/progress.js:61 | the result is the rounded percentage, r − ½ ≤ 100·done/total < r + ½, and 0 for an empty list |
| Rounding.RoundPercentAtMost100 | src/lib/progress.js:61 | a percentage of at most `total` items is at most 100 |
| Rounding.RoundPercentZero | src/components/Checklist.jsx:42 | nothing done is 0% |
| Rounding.RoundPercentFull | src/components/Checklist.jsx:42 | for 1 to 199 items, the percentage is 100 (or at least 100) iff every item is done |
| Rounding.RoundPercentOneShortOf200 | src/components/Checklist.jsx:42 | 199 of 200 done already rounds to 100 |
| Rounding.RoundPercentMonotone | src/lib/progress.js:61 | more items done never gives a smaller percentage |
| AskCoach.UserMessage | netlify/functions/ask-coach.js:38-39 | the message, defaulted to "" when falsy, trimmed: a falsy message gives ""; the result is trimmed; it is the trim of a string message; it fails exactly when the message is truthy but not a string |
| AskCoach.ReplyFor | netlify/functions/ask-coach.js:138-167 | 200 iff the call answered; its reply is the first choice's content when that is a non-empty string and the fallback text otherwise, so it is never empty; a non-ok answer gives 500 "OpenAI API error" with the detail text; a throw gives 500 "Unexpected server error" |
| AskCoach.HandleBody | netlify/functions/ask-coach.js:38-119 | a blank message gives 400 "Missing 'message' field" with no call; a non-string truthy message rejects, and so does a usable message beside a `pageContext` whose conversion to a string throws; otherwise the call gets the three-message prompt, the trimmed user message last, and the response is the one for the call's outcome |
| AskCoach.Handle | netlify/functions/ask-coach.js:8-46 | the checks in order: a method other than POST gives 405, a missing key 500, an unparsable body 400 "Invalid JSON body", and none of these calls the API; any call happens only after all checks pass |
| AskCoach.NoCallIgnoresUpstream | netlify/functions/ask-coach.js:8-46 | whether the API is called, and with which messages, is the same for every upstream outcome; without a call the whole response is too |
| AskCoach.HandlePassesBody | netlify/functions/ask-coach.js:27-38 | a parsed body behind a POST with a key goes on to the field checks, a falsy body read as `{}` |
| AskCoach.AbsentBodyIsEmptyObject | netlify/functions/ask-coach.js:27-46 | an absent body is the same as `{}`, which is refused with 400 "Missing 'message' field" |
| AskCoach.BlankMessageRefused | netlify/functions/ask-coach.js:38-46 | a missing, falsy or all-white-space message is refused with 400 and no API call |
| AskCoach.MessageReachesUpstream | netlify/functions/ask-coach.js:38-119 | a string message with a non-space character, beside a `pageContext` that converts to a string, reaches the API, trimmed, as the last entry, and the reply is the one for the call's outcome |
| AskCoach.UnprintablePageRejects | netlify/functions/ask-coach.js:101-103 | with a usable message, a `pageContext` whose conversion throws (an object with its own "toString" key) makes the handler reject, with no call |
| AskCoach.UnprintableProgressDropped | netlify/functions/ask-coach.js:88-99 | when one of the printed progress fields throws, the `catch` leaves no progress lines: the context sent is the page line and the closing sentence |
| AskCoach.OwnToStringDropsProgress | netlify/functions/ask-coach.js:88-99 | `{"toString": 0}` as `percent`, or as an element of `doneSlugs`, leaves no progress lines |
| AskCoach.TrimContext | netlify/functions/ask-coach.js:105-111 | the joined context starts with a letter and ends with a full stop, so `trim` leaves it unchanged and it is never empty |
| AskCoach.ContextUntrimmed | netlify/functions/ask-coach.js:86-111 | the context message is the page line, then the progress lines, then the fixed closing sentence, with nothing trimmed away, and it is never empty |
| AskCoach.PromptWithContext | netlify/functions/ask-coach.js:113-119 | with a non-empty context the prompt is the persona, then the context as a system message, then the user message |
| AskCoach.PromptShape | netlify/functions/ask-coach.js:105-119 | the prompt is always exactly [persona, system context, user message] |
| AskCoach.PromptEndsWithUser | netlify/functions/ask-coach.js:113-119 | the prompt has three entries, and the last one is the user message with role "user" |
| AskCoach.PageLinePresence | netlify/functions/ask-coach.js:101-103 | the page line is empty iff `pageContext` is falsy; for a truthy value that converts it starts with "User is currently on page: "; a value whose conversion throws is truthy and gives no line, the handler throwing |
| AskCoach.ProgressLinesPresence | netlify/functions/ask-coach.js:87-99 | the progress lines are present iff `starterProgress` is a non-null object whose `percent`, `doneSlugs` (when an array) and `nextSlug` all convert to strings; otherwise the `catch` or the type test leaves "" |
| AskCoach.ProgressLineFallbacks | netlify/functions/ask-coach.js:90-94 | "none" when `doneSlugs` is not a non-empty array, else the slugs joined by ", "; "unknown" when `nextSlug` is falsy, else its text |
| AskCoach.SnippetFromRelevant | netlify/functions/ask-coach.js:88-94 | the progress lines read only whether `starterProgress` is an object, plus `percent`, `doneSlugs` and `nextSlug` |
| AskCoach.HandleBodyFromRelevant | netlify/functions/ask-coach.js:38-119 | the outcome after parsing depends only on `message`, `pageContext` and the progress lines |
| AskCoach.OnlyRelevantFieldsMatter | netlify/functions/ask-coach.js:38-119 | two requests that agree on `message`, `pageContext` and `starterProgress.{percent, doneSlugs, nextSlug}` get the same outcome |
| AskCoach.ExtraTopLevelFieldIgnored | netlify/functions/ask-coach.js:38 | adding any other top-level field, such as `userId`, `mode` or `messages`, changes nothing |
| AskCoach.ExtraProgressFieldIgnored | netlify/functions/ask-coach.js:90 | adding any other field to `starterProgress`, such as `isComplete`, changes nothing |
| AskCoach.PageInfo | netlify/functions/ask-coach.js:101-103 | the page line fails (the template literal throws) exactly when `pageContext`'s conversion to a string throws |
| AskCoach.ProgressSnippet | netlify/functions/ask-coach.js:86-99 | the three progress lines for a non-null object, "" otherwise or when building them throws (definition; ProgressLinesPresence and ProgressLineFallbacks state its properties) |
| AskCoach.ContextMessage | netlify/functions/ask-coach.js:105-111 | page line, progress lines and closing sentence joined and trimmed (definition; ContextUntrimmed shows nothing is trimmed away and it is never empty) |
| AskCoach.Prompt | netlify/functions/ask-coach.js:113-119 | persona, then the context as a system entry when non-empty, then the user entry (definition; PromptShape shows it always has all three) |
| AskCoach.ParseBody | netlify/functions/ask-coach.js:27-37 | `JSON.parse` of the body, or of "{}": an absent body is `{}`, unparsable text fails (definition; Handle states the 400 it leads to) |
| AskCoach.HasApiKey | netlify/functions/ask-coach.js:17 | the key is present and non-empty (definition; Handle states the 500 without it) |
| JsValues.ToText | netlify/functions/ask-coach.js:92-103 | `${v}` fails exactly when the conversion throws (an object with its own "toString" key, or an array holding one at any depth); a string is itself and any other object prints "[object Object]" |
| JsValues.Join | netlify/functions/ask-coach.js:93 | `join` fails exactly when one element's conversion throws |
| JsValues.Truthy | netlify/functions/ask-coach.js:38-103 | JavaScript truthiness of a JSON value: false, 0, "", null and undefined are falsy (definition) |
| JsValues.Field | netlify/functions/ask-coach.js:38 | a destructured property: the object's own field, undefined for a missing one or a non-object (definition; ExtraTopLevelFieldIgnored and OnlyRelevantFieldsMatter use it) |
| ResourceDetail.Level | src/pages/ResourceDetail.jsx:124 | the level is 1, 2 or 3, taken from the tag |
| ResourceDetail.EntryOf | src/pages/ResourceDetail.jsx:125-126 | a heading whose trimmed text is empty gives no entry; otherwise it gives one entry with non-empty, trimmed text |
| ResourceDetail.EntriesAppend | src/pages/ResourceDetail.jsx:123-148 | the entries keep document order: those of two consecutive parts are those of each part, one after the other |
| ResourceDetail.EntriesWellFormed | src/pages/ResourceDetail.jsx:123-147 | every entry has non-blank, trimmed text and a level in 1..3 |
| ResourceDetail.BaseIdShape | src/pages/ResourceDetail.jsx:129-136 | a base id is non-empty, made of word characters and single dashes, and has no dash at either end |
| ResourceDetail.BaseIdKeepsWords | src/pages/ResourceDetail.jsx:129-132 | the word characters of the lower-cased text survive in order, whenever there are any |
| ResourceDetail.BaseIdFallback | src/pages/ResourceDetail.jsx:134-136 | a text without word characters gets "section" |
| ResourceDetail.TwoWordHeadingId | src/pages/ResourceDetail.jsx:129-132 | two words separated by white space get the id "first-second", lower-cased, with one dash for the whole gap ("Getting Started" becomes "getting-started") |
| ResourceDetail.WordsAroundGap | src/pages/ResourceDetail.jsx:131-132 | word text around a run of non-word characters becomes the two texts joined by one dash, with nothing stripped |
| ResourceDetail.BaseId | src/pages/ResourceDetail.jsx:129-136 | lower-case, runs of non-word characters to "-", an end dash stripped, "section" when empty (definition; BaseIdShape, BaseIdKeepsWords and TwoWordHeadingId state its properties) |
| ResourceDetail.StripDashes | src/pages/ResourceDetail.jsx:132 | removing one leading and one trailing "-" never lengthens the text, and on text without double dashes leaves no dash at either end |
| ResourceDetail.Entries | src/pages/ResourceDetail.jsx:123-126 | the entries of the headings in document order (definition; EntriesAppend and EntriesWellFormed state its properties) |
| ResourceDetail.Candidate | src/pages/ResourceDetail.jsx:138-141 | the k-th id tried is the base itself for k = 0, and `base-k` after it |
| ResourceDetail.CandidateInjective | src/pages/ResourceDetail.jsx:141 | different counters give different candidate ids |
| ResourceDetail.ChosenIdUnique | src/pages/ResourceDetail.jsx:138-142 | the chosen id is determined by the base and the ids already used |
| ResourceDetail.FreeBaseKept | src/pages/ResourceDetail.jsx:138-140 | the first heading with a base that is still free keeps that base |
| ResourceDetail.ChooseId | src/pages/ResourceDetail.jsx:138-142 | the counter loop ends on the first candidate not yet used: `base`, else `base-k` with the smallest such k ≥ 1 |
| ResourceDetail.AppendChosen | src/pages/ResourceDetail.jsx:143-147 | appending an item with a freshly chosen id keeps every id first-free and all ids distinct, and adds its id to the used set |
| ResourceDetail.BuildToc | src/pages/ResourceDetail.jsx:119-148 | the items are the entries of the non-blank headings in document order; each id is the first free candidate of its base against the ids before it; the ids are pairwise distinct |
| ResourceDetail.StarterRibbon | src/pages/ResourceDetail.jsx:30-57 | there is no ribbon off the path; otherwise: step idx+1 of 5; `prev` is null exactly at the first step and `next` exactly at the last; both are otherwise the neighbouring slugs |
| ResourceDetail.RibbonNeighbours | src/pages/ResourceDetail.jsx:36-38 | "Next" from step i leads to step i+1, whose "Prev" leads back |
| ResourceDetail.ToggleStep | src/pages/ResourceDetail.jsx:35-50 | `setDone(slug, !done)` with `done` read at render time: where the write lands the flag becomes `!done`, which flips it when the page shows the current state; the store is left alone otherwise, `threw` marks a primitive store, and no other flag changes |
| Checklist.SafeKey | src/components/Checklist.jsx:19 | a given storage key is used as it is; otherwise the key is "checklist:" followed by text with no white space |
| Checklist.DefaultKeyIgnoresCase | src/components/Checklist.jsx:19 | titles that differ only in ASCII letter case share a default key |
| Checklist.DefaultKeyKeepsTitle | src/components/Checklist.jsx:19 | the default key keeps, in order, every character of the lower-cased title that is neither white space nor "-" |
| Checklist.DefaultKeyJoinsWords | src/components/Checklist.jsx:19 | each white-space run between two parts of the title becomes exactly one "-" in the default key |
| Checklist.DoneCount | src/components/Checklist.jsx:37-41 | 0 ≤ done ≤ total; done = total iff every item is checked; done = 0 iff none is |
| Checklist.Pct | src/components/Checklist.jsx:42 | the percentage is at most 100, and 0 without items |
| Checklist.OnlyItemIdsMatter | src/components/Checklist.jsx:37-42 | stale ids in the map change neither the count nor the percentage |
| Checklist.PctFullIffAllChecked | src/components/Checklist.jsx:42 | the percentage is 100 iff every item is checked (for 1 to 199 items) |
| Checklist.Toggled | src/components/Checklist.jsx:44-46 | the toggled id's state flips, and every other id is untouched |
| Checklist.ToggleTwice | src/components/Checklist.jsx:44-46 | toggling twice restores every id's checked state |
| Checklist.ChecklistState.constructor | src/components/Checklist.jsx:13-28 | the component starts with the map read back from storage under its key; an undefined `title` defaults to "Checklist" and undefined `items` to [] |
| Checklist.ChecklistState.Toggle | src/components/Checklist.jsx:44-46 | the map becomes the toggled map, with the id's state flipped |
| Checklist.ChecklistState.Reset | src/components/Checklist.jsx:48-50 | the map is emptied, so done and the percentage are 0 |
| FunnelQuiz.Recommend | src/components/FunnelQuiz.jsx:26-61 | Quick Wins iff extra income with "$0–$100"; the passion guide iff the hobby goal; the toolkit iff the full-time goal; the starter guide otherwise |
| FunnelQuiz.GetRecommendation | src/components/FunnelQuiz.jsx:26-61 | the title, description and link of the guide Recommend picks (definition) |
| FunnelQuiz.OnlyGoalAndBudgetMatter | src/components/FunnelQuiz.jsx:27 | answer lists that agree on goal and budget get the same guide |
| FunnelQuiz.TimeAnswerIgnored | src/components/FunnelQuiz.jsx:27 | the third answer never changes the guide |
| FunnelQuiz.GoalDecides | src/components/FunnelQuiz.jsx:38-54 | the hobby and full-time goals decide alone, whatever the budget |
| FunnelQuiz.StarterFallback | src/components/FunnelQuiz.jsx:56-60 | extra income with a higher budget, and an empty answer list, both get the starter guide |
| FunnelQuiz.Render | src/components/FunnelQuiz.jsx:81-133 | results show iff step ≥ 3; before that the view is question `step`, labelled step+1 |
| FunnelQuiz.Quiz.constructor | src/components/FunnelQuiz.jsx:64-65 | the quiz starts at step 0 with no answers |
| FunnelQuiz.Quiz.HandleAnswer | src/components/FunnelQuiz.jsx:67-76 | both branches append the one answer and move exactly one step on, keeping step equal to the number of answers |
| FunnelQuiz.Quiz.Shown | src/components/FunnelQuiz.jsx:81 | the results show exactly once three answers have been given |
| FunnelQuiz.ThreeAnswers | src/components/FunnelQuiz.jsx:63-133 | three answers on a fresh quiz show the recommendation for those answers |
| Guides.SlugOf | src/content/guides/index.js:8-10 | a module is registered under its meta's slug iff that slug is truthy |
| Guides.EntriesKeys | src/content/guides/index.js:5-11 | a slug is registered iff some module carries it, so modules without a slug are left out |
| Guides.LastModuleWins | src/content/guides/index.js:5-11 | for a repeated slug the last module carrying it is the one stored |
| Guides.KeyOrderMatchesEntries | src/content/guides/index.js:5-11 | the key order lists each registered slug exactly once |
| Guides.EntriesCarryTheirSlug | src/content/guides/index.js:10 | every stored guide's meta carries the slug it is stored under |
| Guides.Entries | src/content/guides/index.js:5-11 | the `guides` object the loop builds (definition; EntriesKeys, LastModuleWins and EntriesCarryTheirSlug state its properties) |
| Guides.KeyOrder | src/content/guides/index.js:5-11 | the insertion order of the slugs (definition; KeyOrderMatchesEntries states its properties) |
| Guides.Registry.constructor | src/content/guides/index.js:5-11 | the loop builds exactly the map and key order of the module list, with each slug listed once, under its own meta |
| Guides.Registry.GetGuideBySlug | src/content/guides/index.js:13-15 | the entry stored under the slug, or null when there is none |
| Guides.Registry.ListGuides | src/content/guides/index.js:17-19 | one meta per stored slug, in key order; their slugs are pairwise different and cover the registry |
| Resources.Normalize | src/lib/resources.js:10-19 | title and slug are copied and `source` is "mdx"; `category` defaults to "General"; `description` is the excerpt, else the description, else "" |
| Resources.GetAllResources | src/lib/resources.js:5-25 | no `listGuides` gives an empty list; otherwise the result is a permutation of the normalised guides, one per guide, sorted by category and then title |
| Resources.EachResourceFromAGuide | src/lib/resources.js:9-19 | every resource is the normalised form of a listed guide, with source "mdx" |
| Resources.EveryGuideListed | src/lib/resources.js:9-19 | each listed guide's normalised form appears at least as often as the guide is listed |
| Resources.OrderOfTheList | src/lib/resources.js:20-24 | categories ascend; within one category, titles ascend |
| Sorting.SortByKey | src/lib/resources.js:20-24 | the sort returns a permutation of its input, ordered by the comparator's key chain |
| Sorting.KeyLePair | src/lib/resources.js:20-24 | with two keys, the first keys ascend, and on a tie the second ones do |
| Sorting.SortStable | src/lib/resources.js:20-24 | the sort is stable: the elements with any one key come out in the order they went in |
| Sorting.InsertWithKey | src/lib/resources.js:20-24 | inserting an element puts it ahead of every element with the same key |
| ResourceHub.CategoryOf | src/pages/ResourceHub.jsx:30 | a missing or empty category reads as "General", so a category is never empty |
| ResourceHub.Categories | src/pages/ResourceHub.jsx:29-32 | the tabs start with "All" |
| ResourceHub.CategoriesDistinctAndComplete | src/pages/ResourceHub.jsx:29-32 | after "All", each resource category appears exactly once, sorted, and nothing else appears |
| ResourceHub.CategoriesAscend | src/pages/ResourceHub.jsx:31 | the tabs after "All" strictly ascend |
| ResourceHub.FilterResources | src/pages/ResourceHub.jsx:35-42 | the filtered list is an order-preserving subsequence holding exactly the resources that are in the category and match the search, each as many times as in the input, and nothing else |
| ResourceHub.NoFilterKeepsAll | src/pages/ResourceHub.jsx:35-42 | the "All" tab with an empty query keeps every resource |
| ResourceHub.SearchIgnoresCase | src/pages/ResourceHub.jsx:39-40 | the search ignores the case of the query's letters |
| ResourceHub.InCategory | src/pages/ResourceHub.jsx:36-38 | the "All" tab, or the resource's category read as "General" when missing, equals the tab (definition; FilterResources states what it keeps) |
| ResourceHub.Haystack | src/pages/ResourceHub.jsx:39 | title, description and category joined by spaces, a missing title printing "undefined" (definition) |
| ResourceHub.MatchesSearch | src/pages/ResourceHub.jsx:39-40 | the lower-cased query occurs in the lower-cased haystack (definition; NoFilterKeepsAll and SearchIgnoresCase state its properties) |
| ResourceHub.ShowBanner | src/pages/ResourceHub.jsx:26 | the banner shows below 100% when not hidden (definition; Hub.Refresh and HiddenForGood state its properties) |
| ResourceHub.Hub.constructor | src/pages/ResourceHub.jsx:13-20 | the banner starts hidden iff the stored flag is exactly "true", with the percentage at 0 |
| ResourceHub.Hub.Refresh | src/pages/ResourceHub.jsx:22-26 | the mount effect reads the percentage from the store once; the banner then shows iff it is not hidden and the path is not complete |
| ResourceHub.Hub.HideBanner | src/pages/ResourceHub.jsx:44-51 | the banner is hidden now; "true" is stored when local storage takes the write, and when `setItem` throws the `catch` leaves the stored flag as it was |
| ResourceHub.HiddenForGood | src/pages/ResourceHub.jsx:13-51 | after hiding, a hub opened again does not show the banner when local storage took the write; when `setItem` threw, it shows the banner again exactly when the path is incomplete and the old flag was not "true" |
| ProgressEffects.Checked | src/components/GlobalProgressEffects.jsx:11-20 | a check opens the toast only on a not-complete to complete edge, and remembers the current reading |
| ProgressEffects.Run | src/components/GlobalProgressEffects.jsx:19 | after a run of checks, the remembered state is the last reading |
| ProgressEffects.RunOpensOnRisingEdge | src/components/GlobalProgressEffects.jsx:11-24 | a closed toast is open after a run of checks iff some reading rose from not complete to complete |
| ProgressEffects.MountWhenComplete | src/components/GlobalProgressEffects.jsx:8-23 | if the path is complete at mount, the first check does not open the toast |
| ProgressEffects.StayingAndReturning | src/components/GlobalProgressEffects.jsx:11-20 | staying complete does not reopen the toast; leaving completion and completing again does |
| ProgressEffects.Effects.constructor | src/components/GlobalProgressEffects.jsx:7-8 | closed, remembering the completeness at mount |
| ProgressEffects.Effects.Check | src/components/GlobalProgressEffects.jsx:11-20 | the component's state after `check` is the `Checked` transition |
| ProgressEffects.Effects.Close | src/components/GlobalProgressEffects.jsx:33 | closing sets `open` to false and keeps the remembered state |
| StarterHeaderBar.CurrentSlug | src/components/StarterHeaderBar.jsx:13-17 | the slug is the non-empty segment after "/resources/" up to the next "/", or null |
| StarterHeaderBar.SlugRoundTrip | src/components/StarterHeaderBar.jsx:15-16 | a guide path, with or without a sub-path, gives back its slug |
| StarterHeaderBar.ShowRule | src/components/StarterHeaderBar.jsx:52 | the bar is never shown on a complete path; below 100% it shows iff `seen`, or the user is on "/start" or on a starter guide |
| StarterHeaderBar.ContinueTarget | src/components/StarterHeaderBar.jsx:97-111 | Continue targets `/resources/<next>` while a step is left, `/start` otherwise |
| StarterHeaderBar.ContinueLeadsToNextStep | src/components/StarterHeaderBar.jsx:55-111 | there is no next step iff the path is complete; otherwise Continue lands on a page the bar reads as that next starter guide |
| StarterHeaderBar.OnPath | src/components/StarterHeaderBar.jsx:23-24 | on "/start" or on a Starter guide (definition) |
| StarterHeaderBar.ShouldShow | src/components/StarterHeaderBar.jsx:52 | shown when seen or on the path, and below 100% (definition; ShowRule states its properties) |
| StarterHeaderBar.AsWrittenNeverSettles | src/components/StarterHeaderBar.jsx:31-50 | as written, on the path at 100%, every effect round flips `seen` |
| StarterHeaderBar.EffectRoundAsWritten | src/components/StarterHeaderBar.jsx:31-50 | the code's effect round: the visit sets `seen`, else a complete path clears it (definition; AsWrittenNeverSettles shows it never settles) |
| StarterHeaderBar.EffectRound | src/components/StarterHeaderBar.jsx:31-50 | at 100% `seen` is cleared; below it, the path visit sets it and otherwise it is kept |
| StarterHeaderBar.EffectRoundSettles | src/components/StarterHeaderBar.jsx:31-50 | the corrected round is idempotent, and it agrees with the code below 100% and off the path |
| StarterHeaderBar.HeaderBar.constructor | src/components/StarterHeaderBar.jsx:26-29 | `seen` starts as whether the stored flag is exactly "true", where local storage can be read |
| StarterHeaderBar.HeaderBar.Update | src/components/StarterHeaderBar.jsx:38-43 | the subscription reads the percentage and leaves the flag alone |
| StarterHeaderBar.HeaderBar.RunEffects | src/components/StarterHeaderBar.jsx:31-50 | one effect round: the flag and its stored copy follow the corrected round and keep agreeing |
| StarterHeaderBar.HeaderBar.Hide | src/components/StarterHeaderBar.jsx:113-117 | "Hide" clears the flag and removes it from storage; off the path the bar then hides |
| Strings.TrimEmptyIffAllSpace | netlify/functions/ask-coach.js:39-41 | a string trims to "" iff it is all white space |
| Strings.ReplaceRunsNoDoubleDash | src/pages/ResourceDetail.jsx:131 | replacing runs of non-word characters never leaves two dashes in a row |
| Strings.ReplaceRunsKeeps | src/pages/ResourceDetail.jsx:131 | replacing the runs keeps every other character, in order |
| Strings.NatToStringInjective | src/pages/ResourceDetail.jsx:141 | different counters print differently |
| Strings.ReplaceRunsAppend | src/pages/ResourceDetail.jsx:131 | the replacement of two texts one after the other is their replacements one after the other, the second continuing the first's run |
| Strings.ReplaceRunsOfRun | src/pages/ResourceDetail.jsx:131 | a non-empty run of class characters becomes a single "-" |
| Strings.ReplaceRunsNoRun | src/pages/ResourceDetail.jsx:131 | text without class characters is left as it is |
| Strings.MaximalRunOneDash | src/pages/ResourceDetail.jsx:131 | each maximal run, with no class character on either side, becomes exactly one "-", and the text on each side is replaced on its own |
| Strings.RunThenRest | src/pages/ResourceDetail.jsx:131 | a run followed by a character outside the class becomes "-" and then the rest's replacement |
| Strings.LowerAppend | src/pages/ResourceDetail.jsx:130 | lower-casing works character by character, so it distributes over concatenation |
| Strings.Trim | netlify/functions/ask-coach.js:39 | `trim()` leaves no white space at either end and never lengthens the text |
| Strings.Lower | src/pages/ResourceDetail.jsx:130 | `toLowerCase()` keeps the length and maps each character on its own |
| Strings.ReplaceRuns | src/pages/ResourceDetail.jsx:131 | every produced character is "-" or outside the class, and a scan inside a run never starts with a class character |
| Strings.Includes | src/pages/ResourceHub.jsx:40 | the needle occurs at some position of the haystack (definition; IncludesEmpty shows the empty needle always does) |
| Strings.StrLe | src/lib/resources.js:22-23 | code-point order on strings (definition; StrLeReflexive, StrLeTotal, StrLeAntisymmetric and StrLeTransitive show it is a total order) |
| Seqs.IndexOf | src/pages/ResourceDetail.jsx:31 | -1 iff the slug is absent; otherwise the first index that holds it |
| Seqs.Dedupe | src/pages/ResourceHub.jsx:30-31 | the Set keeps each category once: the result is distinct and holds exactly the categories of the input |

## Left out

- The outbound HTTPS call to the completion API is an input: its outcome is
  `Upstream`, one of an answer with optional content, a non-ok reply with its
  text, or a throw. The model name and the temperature are constants with no
  behaviour.
- JSON parsing of the request body is an input: the body arrives as a parsed
  value or as unparsable.
- AskCoach.Upstream: a first choice whose content is truthy but not a string
  would still be returned as the reply; the model takes the content as a string.
- AskCoach.UserMessage: a truthy message that is not a string makes `.trim()`
  throw and the handler's promise reject. The model returns `Rejected` for it
  and does not model what the hosting platform answers.
- AskCoach.ChatMessage: the persona entry is the constructor `Persona`. Its
  content is `SystemPrompt()`, the persona lines joined by line feeds, and
  `ContentOf` gives it. The long text is kept out of the prompt sequence
  itself.
- JsValues.ToText: converting a parsed object with its own "toString" key
  throws, and so does an array holding one. The `try`/`catch` around the
  progress lines turns such a throw into no progress lines. The same throw
  from `pageContext` escapes the handler, which the model returns as
  `Rejected`, with no account of what the hosting platform answers.
- JsValues.ToText: numbers are integers printed in decimal. JavaScript prints
  integers from 10^21 on in exponent form and rounds those beyond 2^53, and
  neither is modelled.
- The handler has no authentication, user lookup, memory, CORS or OPTIONS
  handling, and the model has none either.
- Local storage, the `progress:update` window event, the cross-tab `storage`
  listener and the `onProgress` subscription are left out. Storage is
  modelled as a field. A subscription firing is a call of the matching
  method (`Check` for the toast, `Update` for the header bar). The hub
  subscribes to nothing: `Refresh` is its one read of the percentage, in a
  mount effect, so its banner does not follow later progress changes.
- Progress.Load: a stored JSON object is modelled as a map from keys to
  booleans, each value standing for its truthiness. Prototype keys such as
  `constructor` are not modelled. A stored string or array is read as having
  no flags, so the slugs that index into it or name its `length` are not
  modelled.
- Progress.ProgressStore.SetDone: on a stored array a slug that is an array
  index or `length` would change the array, and this is not modelled. A
  `setItem` that throws, say on a full quota, is ignored by the code, and the
  model assumes the write lands whenever local storage exists.
- Guides.Registry.GetGuideBySlug: the lookup on `guides` also sees
  `Object.prototype`. A slug such as "constructor", "toString" or
  "hasOwnProperty" gives back an inherited function, and "__proto__" gives
  back the prototype. The model answers null for every slug that no module
  carries. A module whose slug is "__proto__" would reset the object's
  prototype instead of registering, and this is not modelled either.
- `toLowerCase` is modelled on ASCII letters only. Characters outside ASCII
  whose lower case differs, or changes length, are not modelled.
- Strings are sequences of Unicode code points rather than UTF-16 code units.
  `trim` and `\s` use the ECMAScript white-space set.
- `localeCompare` and the default `sort()` are both modelled as code-point
  order. Locale collation is not modelled.
- `Object.values` is modelled as key insertion order. JavaScript lists
  integer-like keys first, and slugs of that form are not modelled.
- `decodeURIComponent` is the identity on the path segment, and
  `import.meta.glob` is an input list of modules.
- Guides.Meta: meta fields are optional strings. Non-string meta values are
  not modelled.
- Numbers in the request, such as `percent`, are integers. Floating-point
  values and their printing are not modelled.
- Checklist.IsChecked: `checked` is a plain object, so an item whose id is an
  `Object.prototype` name ("constructor", "toString", "valueOf",
  "hasOwnProperty", ...) finds an inherited function and counts as done
  before any click, and its first toggle writes `false`. The model reads such
  an id as unchecked. A stored JSON value that is not an object is not
  modelled either: a stored "null" makes `checked[it.id]` throw during render,
  and a stored string or array makes index-like ids read its characters or
  elements.
- Rounding.RoundPercent: the percentage is rounded exactly, halves up.
  JavaScript computes `done / total * 100` in floating point first, and for
  8 pairs up to 200 items the product falls just below a half. Examples are
  23 of 40 (57.49999999999999, so 57, where the model gives 58), and 29, 57,
  113 and 115 of 200. All such totals are multiples of 40, so the five-step
  progress store never meets one. The checklist meets them only with 40,
  80, 120, 160 or 200 items.
- Checklist.ChecklistState.constructor: the storage-hydration effect is folded
  into the constructor, which receives the stored map. Writing the map back
  and JSON errors are left out.
- DOM work is left out: `querySelectorAll`, `setAttribute` and scrolling. The
  headings arrive as a sequence of tags and texts.
- React rendering, animation and the other components are presentation and
  are not part of this model.
- Rounding.RoundPercentFull: "100% iff all done" is proved only for 1 to 199
  items. From 200 items on it does not hold, as RoundPercentOneShortOf200
  shows.
- Checklist.PctFullIffAllChecked: likewise, only for 1 to 199 items.
- ResourceDetail.BaseIdFallback: stated in one direction only, because a
  heading such as "Section" also gets the id "section".
- StarterHeaderBar.HeaderBar.constructor: the model assumes local storage
  can be read and written. In the source the `useState` initializer calls
  `getItem` outside any `try` (StarterHeaderBar.jsx:28), so the bar throws
  during render when local storage is unavailable. The writes at :33, :47
  and :115 are unguarded too, and a throwing `setItem` or `removeItem` is
  not modelled for the bar (RunEffects and Hide always update the stored
  flag).
- StarterHeaderBar.HeaderBar.RunEffects: follows the corrected effect round
  (see Findings). The code as written is `EffectRoundAsWritten`.

## Findings

| source | as written | input that shows it | evidently intended | confidence | as-written member | corrected member |
|---|---|---|---|---|---|---|
| src/components/StarterHeaderBar.jsx:31-50 | the visit effect sets `seen` whenever the user is on the path, with no check on `pct`; the completion effect clears `seen` at 100%; so on the path at 100% every render sets and then clears the flag and the effects never settle | pathname "/start" with all five Starter slugs done: `seen` goes false → true → false → … | the visit effect only sets `seen` while the path is below 100%, so the flag settles at false once the path is complete | not executed | StarterHeaderBar.AsWrittenNeverSettles | StarterHeaderBar.EffectRoundSettles |
