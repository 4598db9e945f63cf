# resume_app in Dafny

This project models the core of `resume_app`, a desktop résumé builder, and proves properties of that model.

The application reads a candidate workbook with two sheets:
- one holds résumé bullets grouped by role;
- one holds a skill taxonomy, mapping each skill to its categories.

Given a job description, the application:
- ranks each role's bullets against the job text (semantic retrieval, re-ranking by a cross-encoder, then priority boosting for skills the job marks as required);
- recommends skill categories, up to four skills each.

The user then works through a four-panel wizard:
1. choosing the files and entering the job description;
2. bullet selection;
3. skill selection;
4. review and generation.

The chosen bullets and skill groups can be reordered by drag and drop.

Finally the chosen data is flattened into a placeholder dictionary and written into a `.docx` or text template.

The model follows the program's structure. Each module models one source file, and a few modules hold shared definitions:
- **Shared definitions:**
  - `Wrappers`: an Option type;
  - `Text`: ASCII string operations modelled on Python's `str`;
  - `Assoc`: an insertion-ordered dictionary, as a sequence of pairs;
  - `Seqs`, `Sorting` and `StringOrder`: a stable descending sort and an ascending sort of strings;
  - `Numeric`: truncation and rounding as Python does them.
- **Pure functions** become Dafny functions and lemmas: recommendation scoring, parsing, key construction and formatting.
- **Objects whose methods update fields** become classes with `modifies` clauses:
  - the navigation state of the two application shells;
  - the selection state of the panels;
  - the drag-and-drop lists;
  - the paragraphs of a document.

  Each method's `ensures` ties the new state to a specification function of the old state, and lemmas prove what that function promises.

Scores of the skill recommender are counted in half-points, so they stay integers. Similarities produced by the embedding models are `real` values from model functions that the caller supplies.

## Model

| member | source | states |
|---|---|---|
| Skills.SkillRecommender.constructor | resume_app/skill_recommender.py:10-17 | the object keeps the taxonomy and its reverse index is the one built from it |
| Skills.SkillRecommender.BuildCategoryIndex | resume_app/skill_recommender.py:19-25 | the loop builds exactly the reverse index `IndexOf` of the taxonomy |
| Skills.IndexOfSpec | resume_app/skill_recommender.py:19-25 | each category's list is every skill that lists it, in taxonomy order and once per listing; a category is a key iff some skill lists it; keys are distinct |
| Skills.IndexMembership | resume_app/skill_recommender.py:19-25 | a skill is under a category iff the category is one of that skill's categories, so a skill with no categories is indexed nowhere |
| Skills.IndexOrder | resume_app/skill_recommender.py:19-25 | a category's skills come in taxonomy order (the reference definition `SkillsUnder`) |
| Skills.SkillRecommender.CalculateSkillRelevance | resume_app/skill_recommender.py:74-90 | the loop computes the relevance score `Relevance`: direct mention, a whole-word bonus, then the semantic score |
| Skills.RelevancePositive | resume_app/skill_recommender.py:74-121 | a skill scores above zero iff its name occurs in the text, one of its words does, or a term related to a base skill contained in its name does |
| Skills.WholeWordScore | resume_app/skill_recommender.py:74-90 | a whole-word mention is worth at least 15 points (30 half-points) |
| Skills.SkillRecommender.CalculateSemanticScore | resume_app/skill_recommender.py:92-121 | word hits followed by synonym-table hits, as `SemanticScore` |
| Skills.SkillRecommender.AddSynonymHits | resume_app/skill_recommender.py:115-119 | the synonym loop adds half a point for every related term found, for each table row whose base skill is in the skill name |
| Skills.SkillRecommender.ScoreSkills | resume_app/skill_recommender.py:62-72 | the scores kept are exactly `KeptScores` of the lower-cased job text |
| Skills.KeptScoresSpec | resume_app/skill_recommender.py:62-72 | a skill has a score iff it is in the taxonomy with positive relevance, and the score is that relevance; keys are distinct |
| Skills.KeptScoresPositive | resume_app/skill_recommender.py:62-72 | every kept score is positive |
| Skills.SkillRecommender.ScoreCategories | resume_app/skill_recommender.py:123-132 | the loop builds the category totals `CategoryTotals` |
| Skills.CategoryTotalsSpec | resume_app/skill_recommender.py:123-132 | a category's total is the sum of the scores of the skills that list it (once per listing); it is a key iff some scored skill lists it; keys are distinct |
| Skills.CategoryTotalsPositive | resume_app/skill_recommender.py:123-132 | with positive skill scores every category total is positive |
| Skills.SkillRecommender.SelectTopCategories | resume_app/skill_recommender.py:134-164 | the two passes and the final cut compute `SelectTop` |
| Skills.SelectTopSpec | resume_app/skill_recommender.py:134-164 | the chosen categories are distinct categories of the aggregate, exactly min(n, number of categories) of them for n >= 0 |
| Skills.FilledSpec | resume_app/skill_recommender.py:134-164 | before the final cut the selection is already distinct, drawn from the ranking, with min(n, all) members |
| Skills.FirstPassSpec | resume_app/skill_recommender.py:147-154 | the diversity pass keeps distinct ranked categories in rank order, at most n, records their kinds, and every pick after the second brings a new kind |
| Skills.FirstPassPrefix | resume_app/skill_recommender.py:147-154 | for n >= 2 the diversity pass always takes the two highest-ranked categories first |
| Skills.SelectTopLeaders | resume_app/skill_recommender.py:147-154 | whatever their kinds, the two highest-ranked categories are the first two recommended |
| Skills.SecondPassSpec | resume_app/skill_recommender.py:156-162 | the filling pass appends the not-yet-chosen categories in rank order until n are chosen |
| Skills.KindPriority | resume_app/skill_recommender.py:166-179 | the category-kind rules apply in a fixed order: a programming term always wins, and "other" means no rule's term is in the name |
| Skills.SkillRecommender.RecommendSkills | resume_app/skill_recommender.py:27-60 | the recommendation computed is `Recommendations`, the three scoring stages followed by one entry per category |
| Skills.SkillRecommender.RecommendationsSpec | resume_app/skill_recommender.py:27-60 | the result lists the selected categories in selection order and none is dropped; never more than n; each entry has one to four of its category's skills, all with positive relevance, best first; it keeps exactly min(4, scored members) of them, and no relevant member left out is more relevant than a kept one |
| Skills.SkillRecommender.EntryForSpec | resume_app/skill_recommender.py:27-60 | each selected category yields exactly one well-formed entry |
| Skills.SkillRecommender.TopMembersSpec | resume_app/skill_recommender.py:27-60 | a category's kept members, sorted and cut to four, are well formed; the cut is empty only when none of its members scored |
| Skills.SkillRecommender.NonEmptyEntry | resume_app/skill_recommender.py:27-60 | a selected category always has a member that scored, so the `if relevant_skills` test never drops a category |
| Skills.SkillRecommender.ScoredMember | resume_app/skill_recommender.py:49-52 | a category member with positive relevance passes the `skill in skill_scores` filter, with its relevance as its score |
| Skills.TopMembersOrder | resume_app/skill_recommender.py:47-55 | the picked members are scored members of the category in non-increasing score order; there are exactly min(4, scored) of them, so none iff none scored; no scored member left out scores higher than a kept one |
| Skills.FormatLength | resume_app/skill_recommender.py:182-193 | the formatted line "Category [a, b]" is as long as the category, the skills, their ", " separators and the three bracket characters |
| Skills.FormatPrefixGrows | resume_app/skill_recommender.py:182-193 | formatting a longer prefix of the skills never gives a shorter line |
| Recommender.PreprocessNormalised | src/ai/recommender.py:19-21 | the normalised text is lower case, with exactly one space between words and none at either end |
| Recommender.PreprocessIdempotent | src/ai/recommender.py:19-21 | normalising twice gives the same text as normalising once |
| Recommender.ExtractPrioritySkills | src/ai/recommender.py:43-81 | the loop over sentences computes the must-have and nice-to-have lists `Priorities` |
| Recommender.ScanSentence | src/ai/recommender.py:43-81 | one sentence is one step of the scan: a header switches the section, other sentences add their chunks to it |
| Recommender.HeaderFirst | src/ai/recommender.py:53-64 | a sentence is a header iff some token position matches a header pattern, and its section is the one of the earliest match |
| Recommender.ScanSection | src/ai/recommender.py:49-74 | after the scan the current section is set iff some sentence was a header, and it is the one named by the last header |
| Recommender.ScanMembers | src/ai/recommender.py:49-74 | a phrase is gathered under a section iff it is a stripped noun chunk of a non-header sentence read in that section |
| Recommender.NothingBeforeHeader | src/ai/recommender.py:49-74 | with no header sentence nothing is gathered and no section is current |
| Recommender.PrioritiesSpec | src/ai/recommender.py:69-80 | both lists are free of repetitions, and a phrase is in a list exactly when a sentence of that section has it as a chunk |
| Recommender.ExtractSkillsFromJd | src/ai/recommender.py:84-104 | the method returns `ExtractSkills` of the job text |
| Recommender.CountFrequencies | src/ai/recommender.py:100-102 | the counting loop builds the frequency table `Freq` |
| Recommender.TokensShape | src/ai/recommender.py:88-90 | every token has at least three word characters and is not a stopword |
| Recommender.CandidateShape | src/ai/recommender.py:94-98 | a candidate is a token, or two or three consecutive tokens joined by spaces |
| Recommender.FreqCount | src/ai/recommender.py:100-102 | each candidate's count is its number of occurrences |
| Recommender.FreqKeys | src/ai/recommender.py:100-102 | the table's keys are the candidates in order of first occurrence |
| Recommender.FreqDistinct | src/ai/recommender.py:100-102 | no candidate has two entries |
| Recommender.ExtractSkillsSpec | src/ai/recommender.py:86-104 | the phrases are distinct candidates, at most top_k of them, and there are none when no token survives |
| Recommender.ExtractSkillsOrder | src/ai/recommender.py:103-104 | the phrases come in descending frequency and, at equal frequency, descending length |
| Recommender.ExtractSkillsCount | src/ai/recommender.py:94-104 | for top_k >= 0 there are exactly min(top_k, number of distinct candidates) phrases |
| Recommender.ExtractSkillsTop | src/ai/recommender.py:98-104 | a candidate left out of the top_k is no more frequent than any phrase kept, and at equal frequency no longer |
| Recommender.RankStable | src/ai/recommender.py:103 | the ranking sort is stable: entries with equal sort keys keep their table order |
| Recommender.RecommendWithMatches | src/ai/recommender.py:107-121 | the three stages compose into `Pipeline` |
| Recommender.PipelineSpec | src/ai/recommender.py:107-121 | at most top_n results and at most one per distinct normalised text, best first; each is a non-empty input bullet scoring at least 1 plus 20 per must-have and 10 per nice-to-have phrase in it, with at most three matched phrases |
| Recommender.GetSemanticRecommendations | src/ai/recommender.py:124-137 | the method returns `Semantic`, the retrieval stage |
| Recommender.PickMatches | src/ai/recommender.py:124-137 | the loop keeps the retrieved texts that have a non-empty record, as `Pick` |
| Recommender.MappingKeys | src/ai/recommender.py:126 | the mapping's keys are the normalised texts in order of first occurrence, each once |
| Recommender.MappingGet | src/ai/recommender.py:126 | of several bullets with the same normalised text, the last one is kept |
| Recommender.SemanticSpec | src/ai/recommender.py:124-137 | at most top_n matches and at most one per distinct text, best first |
| Recommender.SemanticEntries | src/ai/recommender.py:124-137 | each match is the last non-empty input record with that text, scored 100 times its similarity to the job text, with no phrases yet |
| Recommender.SemanticComplete | src/ai/recommender.py:124-137 | when every record is non-empty, exactly min(top_n, distinct texts) matches come back |
| Recommender.ApplyCrossEncoderReranking | src/ai/recommender.py:140-160 | the loops compute `Rerank` |
| Recommender.NormaliseScores | src/ai/recommender.py:152-158 | the loop shifts each score by one minus the minimum, as `Normalise` |
| Recommender.NormaliseSpec | src/ai/recommender.py:152-158 | shifting a sorted list keeps it sorted, makes every score at least 1 and the lowest exactly 1 |
| Recommender.RerankSpec | src/ai/recommender.py:140-160 | as many matches come out as went in, best first, none below 1 and the lowest at exactly 1 |
| Recommender.RerankGaps | src/ai/recommender.py:140-160 | the shift keeps the gaps between the sorted cross-encoder scores |
| Recommender.RerankBullets | src/ai/recommender.py:140-160 | re-ranking is a permutation of the bullets |
| Recommender.RerankEntries | src/ai/recommender.py:140-160 | each re-ranked match is an incoming match carrying its own cross-encoder score times 100, shifted by the lowest such score so that it lands at 1 |
| Recommender.ApplyPriorityBoosting | src/ai/recommender.py:163-192 | the loops compute `PriorityBoost` |
| Recommender.BoostMatches | src/ai/recommender.py:163-192 | the loop over matches boosts each in turn, as `BoostAll` |
| Recommender.BoostOneSpec | src/ai/recommender.py:163-192 | a boosted match keeps its bullet and scores its truncated base plus 20 per must-have and 10 per nice-to-have phrase found, reporting the matched phrases |
| Recommender.MatchedPhrasesSpec | src/ai/recommender.py:176-178 | at most three phrases, each a candidate above the 0.1 floor, most similar first, and every one of the three most similar above the floor is included |
| Recommender.ConfidentSpec | src/ai/recommender.py:176-178 | the floor keeps exactly the pairs above it, in their order, so sortedness is kept |
| Recommender.PriorityBoostSpec | src/ai/recommender.py:163-192 | one result per match, in descending score order, each the boost of one of the matches |
| Recommender.PriorityBoostBullets | src/ai/recommender.py:163-192 | boosting is a permutation of the bullets |
| Recommender.PriorityBoostStable | src/ai/recommender.py:163-192 | results with equal boosted scores keep their re-ranked order |
| Recommender.RecommendSpec | src/ai/recommender.py:195-198 | one pair per pipeline result, scores non-increasing, each pair an input bullet with score at least 1 |
| Recommender.Similarities | src/ai/recommender.py:214-226 | one similarity per text, in input order |
| Recommender.TwoTowerSpec | src/ai/recommender.py:201-226 | min(top_n, number of texts) input texts, each with its own similarity, best first |
| Recommender.TwoTowerBest | src/ai/recommender.py:201-226 | a text that is left out is no more similar than any text that is kept |
| SkillLimit.FormatSkillWithLimit | resume_app/desktop_ui.py:686-721 | the method returns `FormatWithLimit`, the budgeted skill line |
| SkillLimit.PopSkills | resume_app/desktop_ui.py:707-709 | the pop loop keeps the longest leading run of skills whose format fits, as `Kept` |
| SkillLimit.FormatWithLimitShort | resume_app/desktop_ui.py:688-696 | no skills give ""; a line within the limit is returned unchanged |
| SkillLimit.FormatWithLimitSingle | resume_app/desktop_ui.py:699-704 | a lone skill over the limit, with more than 10 characters of room, is cut and followed by "...", leaving the line one character under the limit |
| SkillLimit.KeptLongest | resume_app/desktop_ui.py:706-718 | the kept prefix is the longest that fits: adding any later skill would exceed the limit |
| SkillLimit.FormatWithLimitMany | resume_app/desktop_ui.py:706-718 | with several skills over the limit, at least one is dropped; the result is the longest fitting prefix, marked " +N]" exactly when five characters are spare, and within the limit |
| SkillLimit.FormatWithLimitFallback | resume_app/desktop_ui.py:720-721 | "category [...]" is returned when a lone skill has too little room or no prefix of several skills fits |
| SkillLimit.FormatWithLimitBound | resume_app/desktop_ui.py:686-721 | every result is empty, within the limit, or the fallback |
| Selection.ToggleSpec | src/ui/panels/bullet_selection.py:194-207 | a click never takes a role past its required count; an accepted tick adds only that index, a refused one changes nothing, an untick removes only that index |
| Selection.PreselectedSpec | src/ui/panels/bullet_selection.py:145-152 | the pre-checked indices are exactly 0 .. min(required, n) - 1 |
| Selection.ValidateSelections | resume_app/desktop_ui.py:977-987 | validation succeeds iff every required role has exactly its count selected |
| Selection.LineTotal | src/ui/panels/bullet_selection.py:212-232 | the loop sums the lines of every role's selected in-range bullets, as `TotalLines` |
| Selection.AddRoleLines | src/ui/panels/bullet_selection.py:212-232 | the inner loop adds one role's selected in-range lines |
| Selection.RoleLinesAdd | src/ui/panels/bullet_selection.py:212-232 | selecting one more in-range bullet adds exactly that bullet's lines to the total |
| Selection.LineColour | src/ui/panels/bullet_selection.py:212-232 | the label is green exactly at 21 lines, red above and orange below |
| Application.ResumeBuilderApp.constructor | src/core/application.py:22-53 | a fresh wizard on the first panel, with the default files, the default role requirements and empty selections |
| Application.NavigationSpec | src/core/application.py:154-169 | both moves keep the counter within 0..3; forward moves by one exactly from a panel before the last that validates, back by one exactly from a panel after the first; a step back undoes a step forward |
| Application.ResumeBuilderApp.GoNext | src/core/application.py:154-161 | the counter takes the guarded forward step with the current panel's verdict; the navigation widgets agree with it; a move reports the panel whose data is loaded |
| Application.ResumeBuilderApp.GoBack | src/core/application.py:163-169 | the counter takes the backward step; the navigation widgets agree with it; a move reports the panel whose data is loaded |
| Application.ResumeBuilderApp.UpdateNavigation | src/core/application.py:192-210 | the buttons and status texts are recomputed to agree with the counter |
| DesktopUi.DesktopApp.constructor | resume_app/desktop_ui.py:15-43 | a fresh wizard on the first panel, with the default files and empty selections |
| DesktopUi.DesktopApp.OnBulletSelection | resume_app/desktop_ui.py:377-390 | the role's selection becomes the capped toggle, and the box stays ticked exactly when a tick was accepted |
| DesktopUi.DesktopApp.ValidateSelections | resume_app/desktop_ui.py:977-987 | succeeds iff every required role has exactly its count selected |
| DesktopUi.DesktopApp.CollectSelectedSkills | resume_app/desktop_ui.py:723-753 | the selected skills are replaced by what the slots contribute |
| DesktopUi.WidgetCategory | resume_app/desktop_ui.py:734-736 | the slot's category, or its non-empty custom entry when the category is "Custom" |
| DesktopUi.WidgetValueSpec | resume_app/desktop_ui.py:723-753 | a slot contributes iff it has a category and a ticked skill; the string is then non-empty, within 50 characters or the fallback, and the plain format when that fits |
| DesktopUi.WidgetValueNonEmpty | resume_app/desktop_ui.py:723-753 | the budgeted format of at least one skill is never empty |
| DesktopUi.DesktopSkillsGet | resume_app/desktop_ui.py:723-753 | with distinct slot keys each slot's entry is what it contributes, and no other key is collected |
| DesktopUi.DesktopApp.CollectFinalTemplateData | resume_app/desktop_ui.py:831-880 | the same template data as the review panel builds |
| DesktopUi.DesktopApp.GoBack | resume_app/desktop_ui.py:902-907 | one step back from any panel but the first, widgets kept in agreement |
| DesktopUi.DesktopApp.GoNext | resume_app/desktop_ui.py:909-924 | the corrected forward step: move on only from a validating panel before the last, collecting the skills when leaving panel 2 and reporting the panel left behind |
| DesktopUi.DesktopApp.Advance | resume_app/desktop_ui.py:909-924 | the guarded step after validation, naming the panel left behind |
| DesktopUi.DesktopApp.GoNextAsWritten | resume_app/desktop_ui.py:909-924 | the step as written: a validating panel always advances, so the counter leaves the last panel for panel 4, where `notebook.select` fails before the navigation is updated |
| DesktopUi.NextPastLastPanel | resume_app/desktop_ui.py:909-924 | on the last panel the caption is "Generate Resume", the written step reaches panel 4, which does not exist, and the guarded step stays put |
| DesktopUi.NextAgreesBeforeLast | resume_app/desktop_ui.py:909-924 | the written and guarded steps agree before the last panel and differ on it |
| DesktopUi.DesktopApp.UpdateNavigation | resume_app/desktop_ui.py:926-946 | back is enabled past the first panel, the caption follows the panel, and the status texts change only for a counter that names a panel |
| DesktopUi.DesktopApp.ValidateCurrentPanel | resume_app/desktop_ui.py:948-975 | panel 0 needs both files and a non-blank job text (stored stripped), panel 1 needs the exact bullet counts, panel 2 collects the skills; the other panels pass |
| BulletSelection.BulletSelectionPanel.ResetSelections | src/ui/panels/bullet_selection.py:83-84 | every required role's selection is emptied |
| BulletSelection.ClearedSpec | src/ui/panels/bullet_selection.py:83-84 | every required role has an empty selection after the reset, and other roles keep theirs |
| BulletSelection.BulletSelectionPanel.BuildRecs | src/ui/panels/bullet_selection.py:94-100 | the recommendations become `RecsFor` of the ranked bullets |
| BulletSelection.RecsForSpec | src/ui/panels/bullet_selection.py:94-100 | a role has recommendations iff it is required and has bullets, and they are its ranked bullets; keys are distinct |
| BulletSelection.BulletSelectionPanel.PreselectRecommendations | src/ui/panels/bullet_selection.py:135-152 | each shown role gains its first `required` indices, and the line label is refreshed |
| BulletSelection.PreselectSpec | src/ui/panels/bullet_selection.py:145-152 | each shown role gains exactly the indices below its requirement, and nothing else changes |
| BulletSelection.LoadedSelection | src/ui/panels/bullet_selection.py:75-152 | after loading, every required role has exactly its first min(required, n) bullets selected |
| BulletSelection.DefaultSelectionValid | src/ui/panels/bullet_selection.py:234-242 | the default pre-selection passes validation whenever each role has enough recommended bullets |
| BulletSelection.BulletSelectionPanel.LoadData | src/ui/panels/bullet_selection.py:75-112 | without a workbook only the reset happens, and the recommendations and the line-count label keep their values; with one, the recommendations are built and pre-selected after the reset, and the label shows the new line total and its colour |
| BulletSelection.BulletSelectionPanel.OnBulletSelection | src/ui/panels/bullet_selection.py:194-210 | the click goes through the cap, the box's final state is returned, and the line label is refreshed |
| BulletSelection.BulletSelectionPanel.UpdateLineCount | src/ui/panels/bullet_selection.py:212-232 | the label shows the line total and its colour |
| BulletSelection.BulletSelectionPanel.Validate | src/ui/panels/bullet_selection.py:234-242 | succeeds iff every required role has exactly its count selected |
| ReviewPanel.ReviewPanel.SummaryTotals | src/ui/panels/review_panel.py:72-82 | the summary gives the bullets selected over the required roles, the line total and the number of non-blank skills |
| ReviewPanel.TotalBulletsExact | src/ui/panels/review_panel.py:72 | when every role holds exactly its count, the bullet total is the sum of the requirements |
| ReviewPanel.TotalBulletsZero | src/ui/panels/review_panel.py:72 | the bullet total is zero iff no required role has anything selected |
| ReviewPanel.SkillCountSpec | src/ui/panels/review_panel.py:82 | the skill count is at most the number of entries, zero iff all are blank, and full iff none is |
| ReviewPanel.ReviewPanel.CollectFinalTemplateData | src/ui/panels/review_panel.py:211-260 | the template data is `SelectionData` of the application's selections |
| ReviewPanel.ReviewPanel.Validate | src/ui/panels/review_panel.py:262-264 | the review panel never blocks the wizard |
| TemplateKeys.KeyBaseSpec | src/ui/panels/review_panel.py:224 | an unmapped role's prefix has no space, no hyphen and no lower-case letter |
| TemplateKeys.PrefixSpec | src/ui/panels/review_panel.py:214-224 | the four known roles use their fixed prefixes and any other role uses its key base |
| TemplateKeys.KnownPrefixesDistinct | src/ui/panels/review_panel.py:214-219 | the four known roles have four different prefixes |
| TemplateKeys.ForeignKeys | src/ui/panels/review_panel.py:231-258 | the title and bullet keys of one prefix are never keys of another prefix, and skill keys belong to no prefix |
| TemplateKeys.RoleKeyNotSkill | src/ui/panels/review_panel.py:231-258 | no bullet key and no title key is a skill key |
| TemplateKeys.BulletKeyJoint | src/ui/panels/review_panel.py:243 | a bullet key determines both its prefix and its number |
| TemplateKeys.SortIndices | src/ui/panels/review_panel.py:237 | the selection sort returns `SortedIndices` |
| TemplateKeys.SortedIndicesSpec | src/ui/panels/review_panel.py:237 | the sorted indices are strictly increasing and are exactly the set's elements |
| TemplateKeys.MinOf | src/ui/panels/review_panel.py:237 | the scan finds the smallest remaining index |
| TemplateKeys.AddBullets | src/ui/panels/review_panel.py:239-243 | the enumerate loop writes the in-range bullets, as `FillBullets` |
| TemplateKeys.FillBulletsGet | src/ui/panels/review_panel.py:239-243 | the i-th bullet key gets the bullet at the i-th smallest index when that index is in range, and is left alone otherwise |
| TemplateKeys.ClearUnused | src/ui/panels/review_panel.py:246-248 | the loop over the unused slots computes `ClearFrom` |
| TemplateKeys.ClearFromGet | src/ui/panels/review_panel.py:246-248 | every slot from the first unused one up to P5 holds "" |
| TemplateKeys.AddRole | src/ui/panels/review_panel.py:223-248 | one role's loop body computes `RoleEntries` |
| TemplateKeys.RoleEntriesSpec | src/ui/panels/review_panel.py:223-248 | a role's title key holds its title, P_i holds the bullet at the i-th smallest selected index when in range, and the later slots up to P5 hold "" |
| TemplateKeys.MergeSkills | src/ui/panels/review_panel.py:251-252 | the selected skills overwrite or extend the data |
| TemplateKeys.FillMissingSkills | src/ui/panels/review_panel.py:255-258 | the loop computes `FillSkills` from SKILL_1 |
| TemplateKeys.FillSkillsSpec | src/ui/panels/review_panel.py:255-258 | existing entries are kept, a missing SKILL_1..SKILL_4 gets "", and no other key is added |
| TemplateKeys.CollectFinalTemplateData | src/ui/panels/review_panel.py:211-260 | the whole collection computes `SelectionData` |
| TemplateKeys.SelectionDataSpec | src/ui/panels/review_panel.py:221-260 | every required role has a title key, every selected skill keeps its value, and SKILL_1..SKILL_4 hold the selected skill or "" |
| TemplateKeys.SelectionDataRole | src/ui/panels/review_panel.py:221-260 | with distinct prefixes and no skill under its keys, each role's title and bullets reach the result as `RoleEntriesSpec` describes |
| Reorder.MoveSpec | src/utils/drag_drop.py:67-68 | a pop-and-insert move keeps the length and the elements, puts the moved element at the target, keeps the others' relative order, is undone by the opposite move, and is the identity when both indices agree |
| Reorder.MoveAt | src/utils/drag_drop.py:193-194 | where each element of a move comes from: the block between the two indices shifts by one |
| Reorder.InsertRemove | src/utils/drag_drop.py:67-68 | inserting what was just popped, at the same place, gives the list back |
| Reorder.RemoveInsert | src/utils/drag_drop.py:67-68 | popping what was just inserted gives the list back |
| Reorder.StepTargetSpec | src/ui/components/bullets_section.py:148-150 | the target stays within the list: the neighbour in the drag direction, or the index itself at either end |
| DragDrop.DragDropListbox.constructor | src/utils/drag_drop.py:10-16 | the listbox holds its own copy of the items, with no drag in progress |
| DragDrop.DragDropListbox.OnDragStart | src/utils/drag_drop.py:46-50 | the row nearest the cursor is recorded |
| DragDrop.DragDropListbox.OnDragEnd | src/utils/drag_drop.py:61-78 | the items become `ListboxDrop`; the items are reordered exactly when the drop row is another row of the list; the start row is forgotten |
| DragDrop.ListboxDropSpec | src/utils/drag_drop.py:61-72 | a drop on another row moves the dragged item there and keeps a permutation of the items; any other drop changes nothing |
| DragDrop.DragDropListbox.GetItems | src/utils/drag_drop.py:80-82 | a copy of the current order is returned |
| DragDrop.DragDropListbox.UpdateItems | src/utils/drag_drop.py:84-87 | the items are replaced by the given list; the recorded start row is kept, and the widget stays valid when none is recorded |
| DragDrop.DragDropFrame.constructor | src/utils/drag_drop.py:93-101 | the frame holds the items, with no drag in progress |
| DragDrop.DragDropFrame.OnDragStart | src/utils/drag_drop.py:151-156 | the cursor position and the dragged item are recorded |
| DragDrop.DragDropFrame.OnDragEnd | src/utils/drag_drop.py:175-207 | the items become `FrameDrop`; they are reordered exactly when another widget lies under the cursor; the drag state is reset |
| DragDrop.FirstHitSpec | src/utils/drag_drop.py:179-189 | the drop target is a widget other than the dragged one that covers the cursor, and no earlier such widget does |
| DragDrop.FrameDropSpec | src/utils/drag_drop.py:175-194 | with a drag in progress and another widget under the cursor, the dragged item moves to the first such widget's index as a permutation; otherwise nothing changes |
| DragDrop.DragDropFrame.GetItems | src/utils/drag_drop.py:209-211 | a copy of the current order is returned |
| DragDrop.DragDropFrame.UpdateItems | src/utils/drag_drop.py:213-216 | the items are replaced by the given list; the recorded drag is kept, and the widget stays valid when none is recorded |
| BulletsSection.BulletsSection.StartBulletDrag | src/ui/components/bullets_section.py:126-132 | the role, the index and the start position are recorded |
| BulletsSection.BulletsSection.EndBulletDrag | src/ui/components/bullets_section.py:140-163 | the ordered bullets become `BulletDrop` and the drag record is cleared; `reordered`, the call of on_reorder, holds exactly when a long enough drag steps to another index |
| BulletsSection.BulletDropSpec | src/ui/components/bullets_section.py:142-163 | only the dragged role's list can change and the roles keep their order; a short drag, or none recorded, changes nothing |
| BulletsSection.BulletDropMoved | src/ui/components/bullets_section.py:146-155 | after a long enough drag the bullet sits one slot further in the drag direction, the list is a permutation and the other bullets keep their relative order |
| BulletsSection.DroppedList | src/ui/components/bullets_section.py:146-155 | the dragged role's new list is the move from the index to the step target |
| SkillsSection.FirstMatchSpec | src/ui/components/skills_section.py:236 | the lazy first group is the shortest with which the pattern matches |
| SkillsSection.ParseSkillMatched | src/ui/components/skills_section.py:236-241 | a match gives a stripped category and at least one skill, each stripped and free of commas |
| SkillsSection.ParseSkillUnmatched | src/ui/components/skills_section.py:242-243 | a value whose stripped form does not end in "]" comes back unparsed, with no skills |
| SkillsSection.ParseFormatRoundTrip | src/ui/components/skills_section.py:213-241 | parsing the template form of a category and its skills gives them back, for a non-empty, stripped, '['-free category and non-empty, stripped, comma-free skills |
| SkillsSection.SkillsSection.StartSkillGroupDrag | src/ui/components/skills_section.py:139-145 | a group drag is recorded with its index and start position |
| SkillsSection.SkillsSection.EndSkillGroupDrag | src/ui/components/skills_section.py:151-178 | the groups become `GroupDrop`; after a move the selected skills are rebuilt and `reordered` (the call of on_reorder) holds, and only then; the record is cleared only when it was a group drag |
| SkillsSection.GroupDropSpec | src/ui/components/skills_section.py:153-164 | a group drag moves the group one slot in the drag direction within bounds, keeping a permutation; a short, mismatched or missing drag changes nothing |
| SkillsSection.SkillsSection.StartIndividualSkillDrag | src/ui/components/skills_section.py:180-187 | a single-skill drag is recorded with its group, index and start position |
| SkillsSection.SkillsSection.EndIndividualSkillDrag | src/ui/components/skills_section.py:193-224 | the groups become `SkillDrop`; after a move the selected skills are rebuilt and `reordered` (the call of on_reorder) holds, and only then; a step from a skill index past the end of its group raises IndexError at the pop (`raised`), leaving the groups and the record unchanged; otherwise the record is cleared when it was a single-skill drag |
| SkillsSection.StaleAfterGroupDrag | src/ui/components/skills_section.py:151-208 | a group drag that does not rebuild the widgets leaves a skill widget whose index is past the end of the group it now names, and its drag raises |
| SkillsSection.SkillDropSpec | src/ui/components/skills_section.py:195-214 | only the dragged skill's group changes: its skills are a permutation with the skill one slot further, its value is the template form of the new order (and parses back to it), and key and category stay |
| SkillsSection.SkillRegrouped | src/ui/components/skills_section.py:206-214 | a rebuilt group keeps key and category, its skills are the move of the old ones, and its value parses back to them |
| SkillsSection.MoveReparsable | src/ui/components/skills_section.py:206-214 | reordering the skills keeps a group reparsable |
| SkillsSection.SkillsSection.UpdateSelectedSkillsFromOrdered | src/ui/components/skills_section.py:226-230 | the selected skills are rebuilt from the ordered groups, as `SelectedFrom` |
| SkillsSection.SelectedFromKeys | src/ui/components/skills_section.py:226-230 | the rebuilt map has exactly the ordered groups' keys |
| SkillsSection.SelectedFromLast | src/ui/components/skills_section.py:226-230 | each key holds the value of the last group with that key |
| SkillsSection.SelectedFromDistinct | src/ui/components/skills_section.py:226-230 | no key is stored twice |
| SkillsSelection.SkillsSelectionPanel.UpdateFilteredSkills | src/ui/panels/skills_selection.py:172-184 | the selected categories are the ticked ones, the filtered skills are those with a selected category, and every section is then rebuilt over the filtered skills with its ticks cleared, so nothing is collected until boxes are ticked again |
| SkillsSelection.SkillsSelectionPanel.CreateSkillSections | src/ui/panels/skills_selection.py:186-240 | four sections keyed SKILL_1..SKILL_4 with no name, each rebuilt over the filtered skills, so nothing is collected |
| SkillsSelection.SkillsSelectionPanel.UpdateSkillSections | src/ui/panels/skills_selection.py:242-282 | each section keeps its key and entered name and gets one unticked box per filtered skill, in ascending order |
| StringOrder.Sort | src/ui/panels/skills_selection.py:257 | `sorted` of the skill names: ascending, with exactly the given names |
| SkillsSelection.UntickedSpec | src/ui/panels/skills_selection.py:251-270 | the fresh boxes are exactly the shown skills, in the shown order when ascending, and none is ticked |
| SkillsSelection.RebuildSpec | src/ui/panels/skills_selection.py:251-282 | a rebuilt section shows the given skills, has nothing checked, its label reads 0 and it contributes nothing |
| SkillsSelection.RebuiltCollectNothing | src/ui/panels/skills_selection.py:242-321 | after a rebuild of every section the collection is empty |
| SkillsSelection.TickedCategories | src/ui/panels/skills_selection.py:174 | a category is selected iff its box is ticked |
| SkillsSelection.FilteredSpec | src/ui/panels/skills_selection.py:176-180 | a skill is kept, with its categories unchanged, iff one of its categories is selected |
| SkillsSelection.CheckedSpec | src/ui/panels/skills_selection.py:291-315 | the checked skills are exactly the ticked entries, and empty iff none is ticked |
| SkillsSelection.CharCount | src/ui/panels/skills_selection.py:284-306 | the label shows the formatted length, red over 50, orange over 45 and green otherwise, or 0 in black when there is nothing to format |
| SkillsSelection.CollectedIffLabel | src/ui/panels/skills_selection.py:284-321 | a section is collected iff its label is green or orange, and its value then has the label's length |
| SkillsSelection.SkillsSelectionPanel.CollectSelectedSkills | src/ui/panels/skills_selection.py:308-321 | the selected skills are replaced by what the sections contribute |
| SkillsSelection.CollectedBound | src/ui/panels/skills_selection.py:308-321 | every collected value is at most 50 characters |
| SkillsSelection.CollectedFrom | src/ui/panels/skills_selection.py:308-321 | every collected entry is a section's key with what that section contributes |
| SkillsSelection.CollectedEmpty | src/ui/panels/skills_selection.py:308-321 | the collection is empty iff no section contributes |
| SkillsSelection.CollectedGet | src/ui/panels/skills_selection.py:308-321 | with distinct section keys, each section's entry is what it contributes |
| SkillsSelection.CollectedAbsent | src/ui/panels/skills_selection.py:308-321 | a key that no section carries is not collected |
| SkillsSelection.SkillsSelectionPanel.Validate | src/ui/panels/skills_selection.py:323-341 | the skills are collected, and validation passes iff the collection is non-empty |
| TemplateCollector.TemplateDataCollector.constructor | src/ui/components/template_data_collector.py:13-14 | the collector reads the given application |
| TemplateCollector.TemplateDataCollector.CollectFinalTemplateData | src/ui/components/template_data_collector.py:16-67 | the dict is the role loop, then the counted skill loop, then the cleared slots, over the application's ordered data |
| TemplateCollector.AddOrderedRoles | src/ui/components/template_data_collector.py:29-47 | the loop over ordered_bullets gives each role's entries in dict order |
| TemplateCollector.AddOrderedRole | src/ui/components/template_data_collector.py:30-47 | one role adds its title, its listed bullets and its cleared slots |
| TemplateCollector.OrderedRoleSpec | src/ui/components/template_data_collector.py:30-47 | a role gets its title, its bullets as P1..Pn in list order, and "" in P(n+1)..P5 |
| TemplateCollector.AddListed | src/ui/components/template_data_collector.py:41-42 | the enumerate loop stores each bullet's text under its 1-based P key |
| TemplateCollector.ListBulletsGet | src/ui/components/template_data_collector.py:41-42 | P_i holds the i-th bullet's text |
| TemplateCollector.AddOrderedSkills | src/ui/components/template_data_collector.py:50-61 | each skill is stored under its own key and, while the counter is at most 4, under the next slot; the counter ends at min(count, 4) + 1 |
| TemplateCollector.PutSkillsSlot | src/ui/components/template_data_collector.py:52-61 | slot SKILL_n holds the n-th skill's value unless a later skill's own key is SKILL_n |
| TemplateCollector.SlotOverwritten | src/ui/components/template_data_collector.py:52-61 | a later skill whose key is SKILL_1 does overwrite slot 1 |
| TemplateCollector.ClearSlots | src/ui/components/template_data_collector.py:64-65 | the slots from the counter up to 4 are set to "" |
| TemplateCollector.ClearSkillsGet | src/ui/components/template_data_collector.py:64-65 | every cleared slot holds "" |
| TemplateCollector.CollectorSkillsSpec | src/ui/components/template_data_collector.py:50-65 | SKILL_1..SKILL_4 are always present, "" past the number of skills, and the n-th skill's value otherwise unless a later skill uses that key |
| TemplateCollector.CollectorRoleSpec | src/ui/components/template_data_collector.py:18-47 | with distinct prefixes and no skill on its keys, every role reaches the final dict with its title, its bullets in their current order and "" up to P5 |
| TemplateCollector.CollectorTitles | src/ui/components/template_data_collector.py:33-38 | every role's title key is present in the final dict |
| TemplateCollector.TemplateDataCollector.CalculateSelectionStats | src/ui/components/template_data_collector.py:69-83 | the statistics are the bullet count, the line sum and the skill count of the ordered data |
| TemplateCollector.MoveLines | src/ui/components/template_data_collector.py:72-76 | moving a bullet within its list keeps the list's line sum |
| TemplateCollector.StatsAfterBulletDrop | src/ui/components/template_data_collector.py:69-83 | dragging a bullet within its role leaves every statistic unchanged |
| TemplateCollector.StatsAfterSkillDrops | src/ui/components/template_data_collector.py:69-83 | dragging a skill group, or a skill within its group, leaves every statistic unchanged |
| Generator.SelectDefaults | src/core/generator.py:41-49 | the selection loop over DEFAULT_COUNTS gives the selections dict |
| Generator.SelectionsGet | src/core/generator.py:41-49 | a role is selected iff it is counted and has bullets, and then it holds the picks for its count |
| Generator.DefaultSelectionCaps | src/core/generator.py:41-49 | a default role with bullets gets at most min(count, len(bullets)) of its own bullets; other roles get no entry |
| Generator.PickedSpec | src/core/generator.py:48-49 | at most min(count, len(bullets)) picks, each one of the given bullets |
| Generator.RecommendRanks | src/core/generator.py:48 | the bullet recommender returns only input bullets, and at most top_n of them |
| Generator.SkillRecommendations | src/core/generator.py:59-66 | the skill table numbers the four recommended categories, and is empty for an empty skills sheet |
| Generator.NumberSkills | src/core/generator.py:64-66 | the enumerate loop gives the numbered skill table |
| Generator.SkillTableSpec | src/core/generator.py:64-66 | SKILL_i holds the i-th recommendation, formatted; no other key exists, and keys are unique |
| Generator.FlattenSelections | src/core/generator.py:70-74 | the key loops give the flattened template data |
| Generator.TemplateDataGet | src/core/generator.py:71-74 | with separate key bases, KEYBASE_i holds the text of the role's i-th pick |
| Generator.TemplateDataKeys | src/core/generator.py:71-74 | every key is some role's KEYBASE_i, and keys are unique |
| Generator.KeyBase | src/core/generator.py:72 | the key base holds no ' ' or '-' and is no longer than the role |
| Generator.DefaultBasesDiffer | src/core/generator.py:10-15 | the four default roles have different key bases |
| Generator.KeyInjective | src/core/generator.py:74 | two numbered keys are equal only for the same base and number when no base holds '_' |
| Generator.OtherFieldsSpec | src/core/generator.py:77 | other_fields drops exactly "bullets", keeps every other lookup, and keeps keys unique |
| Generator.OtherFieldsGet | src/core/generator.py:77 | other_fields answers every lookup as the candidate does, except "bullets" |
| Generator.MergeSpec | src/core/generator.py:78 | in the merge a key takes its value from the last of the four dicts that has it |
| Generator.MergedKeys | src/core/generator.py:64-78 | SKILL_i is the i-th formatted recommendation; a default role's KEYBASE_i is its i-th pick; a candidate field keeps its value, each unless a later dict shadows it |
| Generator.GenerateResume | src/core/generator.py:18-80 | the data passed to the renderer has unique keys and merges the parsed job text, the other fields, the default picks and the skill table, in that order |
| Generator.RecommendForRoles | src/core/generator.py:85-100 | every role of the sheet gets its picks for top_k |
| Generator.RoleResultsSpec | src/core/generator.py:95-98 | one entry per role, in sheet order, holding the role's picks for top_k |
| Generator.RoleResultsBound | src/core/generator.py:95-98 | for a non-negative top_k every entry holds at most top_k of the role's own bullets |
| Generator.NoBulletsNoResults | src/core/generator.py:91-93 | a candidate without bullets gets no results |
| JobParser.ParseJobDescription | src/data/job_parser.py:10-38 | skills and responsibilities are the lines of their bucket in text order; keywords are ascending, and are exactly the keyword set |
| JobParser.AddLineKeywords | src/data/job_parser.py:30-32 | the word loop adds the trimmed form of each word longer than 3 characters |
| JobParser.Classify | src/data/job_parser.py:22-27 | a line is a skill line iff it has a skill marker, a responsibility line iff it has a responsibility marker and no skill marker, and a keyword line otherwise |
| JobParser.BucketsPartition | src/data/job_parser.py:22-32 | every line lands in its own bucket and in no other, and the bucket sizes add up to the line count |
| JobParser.KeywordSetSpec | src/data/job_parser.py:28-32 | a keyword is in the set iff some keyword line gives it |
| JobParser.WordKeywordsSpec | src/data/job_parser.py:30-32 | a keyword comes from a word longer than 3 characters with ",:;.()" trimmed from its ends, and every such word gives one |
| JobParser.ShortKeyword | src/data/job_parser.py:30-32 | the length test comes before the trimming, so "(ab)" yields the 2-character keyword "ab" |
| ExcelLoader.SafeStr | resume_app/excel_loader.py:82-84 | a NaN cell gives "", and any result is stripped |
| ExcelLoader.SafeIntWhole | resume_app/excel_loader.py:87-94 | a printed integer reads back as itself, the numeral being read exactly rather than rounded to a double |
| ExcelLoader.SafeIntPadded | resume_app/excel_loader.py:87-94 | whitespace around a printed integer is ignored, the numeral being read exactly rather than rounded to a double |
| ExcelLoader.SafeIntFraction | resume_app/excel_loader.py:87-94 | a decimal fraction is cut off toward zero, so "-3.7" reads as -3, the numeral being read exactly rather than rounded to a double |
| ExcelLoader.SafeIntText | resume_app/excel_loader.py:87-94 | NaN, "", "." and words read as 0 |
| ExcelLoader.PrintedNumeral | resume_app/excel_loader.py:87-94 | an optional minus, digits, and an optional "." with digits reads as the signed integer part, the numeral being read exactly rather than rounded to a double |
| ExcelLoader.TruncateSpec | resume_app/excel_loader.py:92 | int() of a float keeps the sign and drops less than one |
| ExcelLoader.ParseKeywordsJoin | resume_app/excel_loader.py:97-102 | non-empty stripped keywords without commas, joined by commas, read back unchanged |
| ExcelLoader.ColumnMapSpec | resume_app/excel_loader.py:43 | a lower-case name is mapped iff some column has it, and then to such a column |
| ExcelLoader.BulletColumnsPresent | resume_app/excel_loader.py:33-52 | in bullet format the role and bullet columns are columns of the sheet, with the expected lower-case names |
| ExcelLoader.Entries | resume_app/excel_loader.py:56-69 | one entry per row, in row order |
| ExcelLoader.RoleRows | resume_app/excel_loader.py:56-71 | a role's rows are kept rows of that role, taken from the entries |
| ExcelLoader.GroupedSpec | resume_app/excel_loader.py:56-73 | a role's group is exactly its kept rows in row order, and a role without kept rows has no group |
| ExcelLoader.ParseBulletFormat | resume_app/excel_loader.py:41-73 | the result is the grouping of the sheet's entries |
| ExcelLoader.GroupRows | resume_app/excel_loader.py:56-71 | the row loop appends each kept entry to its role's list |
| ExcelLoader.LoadCandidateSheet | resume_app/excel_loader.py:23-30 | an empty sheet gives no data; a non-empty sheet gives bullet groups iff it is in bullet format |
| ExcelLoader.LoadSkillsSheet | resume_app/excel_loader.py:116-131 | an empty sheet gives {}; otherwise the kept rows assign their categories in row order |
| ExcelLoader.AssignSkills | resume_app/excel_loader.py:122-129 | the row loop gives the skills map |
| ExcelLoader.SkillsMapLast | resume_app/excel_loader.py:122-129 | the last kept row naming a skill decides its categories |
| ExcelLoader.SkillsMapAbsent | resume_app/excel_loader.py:122-129 | a skill that no kept row names is absent |
| ExcelLoader.SkillsMapCategories | resume_app/excel_loader.py:128 | every stored category is non-empty and stripped |
| ExcelLoader.SkillsMapFrom | resume_app/excel_loader.py:122-129 | a stored category list is some row's |
| ExcelLoader.EmptySheet | resume_app/excel_loader.py:23-24 | an empty sheet gives no candidate data and no skills |
| TemplateRenderer.RenderRoute | resume_app/template_renderer.py:40-64 | a missing template is an error; a non-.docx template goes to the text renderer; a .docx template needs python-docx, uses docxtpl when it is present and does not fail, and falls back to python-docx otherwise |
| TemplateRenderer.SplitExt | resume_app/template_renderer.py:43 | the root and extension put together give the path; the extension is empty or one '.' followed by no '/' and no '.' |
| TemplateRenderer.UsesDocxIff | resume_app/template_renderer.py:43-45 | a path is rendered as .docx iff it ends in ".docx" in any letter case within its last component, after some character other than a dot |
| TemplateRenderer.DocxUpperCase | resume_app/template_renderer.py:43-45 | "cv.DOCX" is rendered as .docx |
| TemplateRenderer.DocxHiddenName | resume_app/template_renderer.py:43-45 | ".docx" and "cv/.docx" have no extension and are rendered as text |
| TemplateRenderer.LayoutOf | resume_app/template_renderer.py:193-211 | a paragraph is laid out as a title line iff a TITLE placeholder and a separator are in it, as a skill line iff that fails and a SKILL_ placeholder is in it, and by plain replacement otherwise |
| TemplateRenderer.Separator | resume_app/template_renderer.py:237-241 | a separator is chosen iff " – " or " - " occurs, and " – " wins over " - " |
| TemplateRenderer.SplitFirst | resume_app/template_renderer.py:254 | the parts before and after the first occurrence of the separator rebuild the text |
| TemplateRenderer.GuardedFoldIsFold | resume_app/template_renderer.py:225-230 | replacing only the present placeholders gives the same text as replacing all of them in order |
| TemplateRenderer.TitleRunsSpec | resume_app/template_renderer.py:214-285 | without a separator the substituted text is kept whole; with one the paragraph reads as the stripped title, the separator and the stripped location, split at the first separator |
| TemplateRenderer.SkillFoldOnlySkills | resume_app/template_renderer.py:298-309 | the skill loop ignores every key not starting with SKILL_ |
| TemplateRenderer.SkillFoldSingleBrace | resume_app/template_renderer.py:298-309 | when no `{{ KEY }}` form is met, the skill loop is the plain replacement over the SKILL_ entries |
| TemplateRenderer.ParseSkillLineRoundTrip | resume_app/template_renderer.py:316-321 | `category [skills]` parses back into the stripped category and skills |
| TemplateRenderer.ParseFormattedSkill | resume_app/template_renderer.py:316-321 | a skill line joined with ", " parses back into its category and list |
| TemplateRenderer.SkillRunsMatched | resume_app/template_renderer.py:319-347 | a matching skill line reads as `category [skills]` in five new runs, the category bold |
| TemplateRenderer.SkillRunsUnmatched | resume_app/template_renderer.py:348-352 | a line that does not match reads as the substituted text in one new run |
| TemplateRenderer.PlainRunsSpec | resume_app/template_renderer.py:355-372 | the paragraph reads as the substituted text, and is left untouched when the substitution changes nothing |
| TemplateRenderer.FoldAbsent | resume_app/template_renderer.py:358-360 | a text holding none of the placeholders comes out unchanged |
| TemplateRenderer.FoldSnoc | resume_app/template_renderer.py:358-360 | the last entry's placeholder is replaced last |
| TemplateRenderer.Placeholders | resume_app/template_renderer.py:135 | every found name is a placeholder name whose `{name}` occurs in the text |
| TemplateRenderer.PlaceholdersComplete | resume_app/template_renderer.py:135 | conversely, every `{name}` with a placeholder name that occurs in the text is found |
| TemplateRenderer.PlaceholderFoundAt | resume_app/template_renderer.py:135 | a `{name}` occurring at any position is found: no earlier match can swallow it, since a match holds no brace |
| TemplateRenderer.ConversionDictSpec | resume_app/template_renderer.py:135-141 | the conversion mapping has every non-SKILL_ name once, with its Jinja form, and no SKILL_ name |
| TemplateRenderer.ConversionCovers | resume_app/template_renderer.py:135-141 | a paragraph's conversion maps `name` to `{{ name }}` exactly when `{name}` occurs in its text with a placeholder name that is not a SKILL_ key |
| TemplateRenderer.WithoutSkillsGet | resume_app/template_renderer.py:83 | the docxtpl data has no SKILL_ key and agrees with the data on every other key |
| TemplateRenderer.CellGuard | resume_app/template_renderer.py:109-115 | '{' is in the joined cell text iff it is in one of the cell's paragraphs |
| TemplateRenderer.RenderTextTemplate | resume_app/template_renderer.py:375-386 | the output replaces each key's `{{KEY}}` by its value, in data order |
| TemplateRenderer.TextTemplateNeedsDoubleBraces | resume_app/template_renderer.py:380-381 | a template without "{{" comes out unchanged, so single-brace placeholders are left alone |
| TemplateRenderer.Paragraph.ReplaceJobTitle | resume_app/template_renderer.py:214-285 | the runs become the title layout of the old runs |
| TemplateRenderer.Paragraph.ReplaceSkill | resume_app/template_renderer.py:288-352 | the runs become the skill layout of the old runs |
| TemplateRenderer.Paragraph.SimpleTextReplacement | resume_app/template_renderer.py:355-372 | the runs become the plain replacement of the old runs |
| TemplateRenderer.Paragraph.SimpleReplaceParagraphText | resume_app/template_renderer.py:187-211 | the runs become the rewriting the paragraph's layout selects |
| TemplateRenderer.Paragraph.ConvertToJinja | resume_app/template_renderer.py:132-141 | the runs become the Jinja conversion of the old runs |
| TemplateRenderer.Document.RewriteParagraphs | resume_app/template_renderer.py:96-117 | every paragraph holding a '{' is rewritten with the data, and the others are left as they are |
| TemplateRenderer.Document.ConvertToJinja | resume_app/template_renderer.py:120-159 | every paragraph becomes its Jinja conversion |

## Left out

- File I/O: `open`, `os.path.exists`, `tempfile`, saving documents and `pandas.read_excel` are not modelled. A workbook sheet is a given value (`ExcelLoader.Sheet`), whether the template exists is a boolean parameter of `TemplateRenderer.RenderRoute`, and the job text is a string parameter. When `read_excel` returns a dict of sheets, the first one is taken; that choice is not modelled.
- Foreign models: the Sentence-BERT embedder, the CrossEncoder and spaCy (sentence segmentation, noun chunks, the Matcher) are parameters of `Recommender.Models`. Sentences come pre-segmented, and the module-level model loading and the `__main__` demo block of src/ai/recommender.py are left out.
- Floating point: cosine similarities are `real` values given by the model functions. The colour-coding fractions of the bullet labels (resume_app/desktop_ui.py:356-375, src/ui/panels/bullet_selection.py:173-192) are not modelled. Neither are the float 'lines' values that `calculate_selection_stats` would add up; line counts are integers, as `_safe_int` produces them.
- Generator.GenerateResume: returns the data dict it passes to `render_template`, not `{"output_path", "status"}`. The rendering itself is `TemplateRenderer`. The ranking `recommend` is a parameter (`Generator.Ranker`) with the properties `Generator.RecommendRanks` proves of `Recommender.Recommend`.
- BulletSelection.BulletSelectionPanel.BuildRecs and BulletSelection.BulletSelectionPanel.LoadData: the ranking step of src/ui/panels/bullet_selection.py:90-100 (`load_candidate_sheet` and `recommend_with_matches(bullets, jd_text, top_n=len(bullets))` per role) is the parameter `ranked`, each role's bullets in ranked order. It is not tied to `Recommender.Recommend` here. The records keep only the bullet and its line count: the "score" and "matches" fields added at src/ui/panels/bullet_selection.py:100 feed only the colour coding, which is not modelled.
- Generator.GenerateResume: `CandidateOk` and `HaveText` state what the code relies on without checking it: dict keys are unique, "bullets" holds the role dict, and every record has a "bullet" field. The code would raise on anything else.
- Generator.MergedKeys: a bullet key and a candidate field keep their values only when no later dict of the merge has the same key, as `Generator.MergeSpec` shows in general.
- DEFAULT_COUNTS names the role "FactCheck" (src/core/generator.py:13) while the interface uses "FactCheckAI". The model keeps the generator's spelling, so a sheet role "FactCheckAI" gets no default selection.
- Text is ASCII: `lower`, `upper`, `strip`, `split` and the `\w` and `\b` classes are modelled on ASCII characters. Unicode case mapping and Unicode whitespace other than the ASCII set are not modelled. `str.splitlines` is modelled by its break characters.
- ExcelLoader.SafeInt: `float()` spellings other than plain decimals ("1e3", "inf", "nan", "_" separators) are read as not parseable, so they give 0. For "inf" and "-inf" the source does not give 0: `int(float("inf"))` raises OverflowError, which `except (ValueError, TypeError)` at resume_app/excel_loader.py:93 does not catch, so the load fails there. A text numeral is read as an exact decimal, while `float()` at resume_app/excel_loader.py:92 first rounds it to the nearest double. The two differ for integer parts above 2^53 ("9007199254740993" gives 9007199254740992 in the source) and for fractions within half a unit in the last place of an integer ("2.9999999999999999" gives 3 in the source, 2 in the model). Whole and Float cells are read by value, as Excel stores them; IEEE rounding is not modelled.
- ExcelLoader.SafeIntWhole: the source agrees for every integer of magnitude up to 2^53, but not beyond: a larger printed integer that is not a double, such as 2^53 + 1, is rounded by `float()`.
- ExcelLoader.SafeIntPadded: as for ExcelLoader.SafeIntWhole, the source agrees up to magnitude 2^53 and not for every integer beyond.
- ExcelLoader.SafeIntFraction: the source agrees only while the numeral's nearest double has the same integer part. That fails for some integers above 2^53 in magnitude, and for fractions that round up to the next integer, as "2.9999999999999999" does.
- ExcelLoader.PrintedNumeral: states the exact signed integer part of any digit string; the source gives that only when the numeral's nearest double has the same integer part, which fails past about 17 significant digits.
- ExcelLoader.SafeStr and ExcelLoader.ParseKeywords: non-text cells are given by their `str()` text (`CellString`).
- Message boxes, DEBUG prints, fonts, bold and italic flags beyond the run records, widget construction, scrolling, mouse-wheel bindings, help text and file dialogs are left out. Pixel geometry (`winfo_rooty`, `nearest`, widget spans) becomes given indices and spans.
- The review panel's title-entry widgets (src/ui/panels/review_panel.py:105-117) are user interface. Its `_generate_resume` (src/ui/panels/review_panel.py:176-209) is file dialogs and I/O.
- resume_app/desktop_ui.py repeats the bullet-selection logic of src/ui/panels/bullet_selection.py. The shared part is modelled once, in `Selection`, and used by both.
- resume_app/template_renderer.py and src/templates/template_renderer.py are byte-identical. One module models both, and its rows cite the first.
- Table cells are modelled as lists of paragraphs, and merged cells are not modelled. `os.path.splitext` is modelled for POSIX paths only.
- DesktopUi.WidgetCategory: the custom-skill entry looked up at resume_app/desktop_ui.py:745-748 is never stored in the slot dict (resume_app/desktop_ui.py:618-622), so it is always absent and contributes nothing.
- The `on_reorder` callbacks (src/utils/drag_drop.py:75-76 and 200-201, src/ui/components/bullets_section.py:158-159, src/ui/components/skills_section.py:174-175 and 220-221) are code of the parent widget. DragDrop.DragDropListbox.OnDragEnd, DragDrop.DragDropFrame.OnDragEnd, BulletsSection.BulletsSection.EndBulletDrag, SkillsSection.SkillsSection.EndSkillGroupDrag and SkillsSection.SkillsSection.EndIndividualSkillDrag return `reordered`, which is true exactly when the source would call the callback; what the callback then does is not modelled.
- BulletsSection.BulletsSection.EndBulletDrag: requires the recorded role to exist and the index to be within its list. The section only ever permutes a role's list, so an index captured when the widgets were built may name another bullet after an unrebuilt drag, but never one past the end. The single-skill drag differs: a group drag can put a shorter group under a skill widget's group index, and that case is modelled as the IndexError it raises.
- DragDrop.DragDropListbox.UpdateItems and DragDrop.DragDropFrame.UpdateItems: as in the source, new items during a drag keep the recorded index, which may no longer name an item. `Valid()` is then not promised, and the drag ends, which require it, are not modelled for that case.
- SkillLimit.FormatWithLimitBound and DesktopUi.WidgetValueSpec: the length bound is proved for up to 1000 skills, where the " +N" suffix has at most 3 digits.
- src/data/excel_loader.py and src/ai/skill_recommender.py are imported by the generator but are not part of this model. resume_app/excel_loader.py and resume_app/skill_recommender.py stand in for them.
- main.py, app.py, resume_builder.py, the package `__init__` files, src/ui/panels/file_selection.py, src/ui/panels/base_panel.py and src/utils/ui_helpers.py are launchers and user interface, and are not part of this model.

## Findings

| source | as written | input that shows it | evidently intended | confidence | as-written member | corrected member |
|---|---|---|---|---|---|---|
| resume_app/desktop_ui.py:909-924 | `_go_next` has no upper bound. On the last panel the button reads "Generate Resume" and stays enabled, and that panel always validates, so `current_panel` becomes 4 before `notebook.select` is reached | `current_panel == 3` and the next button is pressed | advance only while `current_panel < 3`, as src/core/application.py:156 does | not executed | DesktopUi.NextPastLastPanel, DesktopUi.DesktopApp.GoNextAsWritten | DesktopUi.DesktopApp.GoNext |
