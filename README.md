# SGOD MIS school reporting, modelled in Dafny

SGOD MIS is a school-reporting system for a schools division. Schools fill
in School Monitoring, Evaluation and Adjustment (SMEA) forms, and SGOD staff
review them and follow the results on the SMME KPI dashboard.

- **Forms.** A form has sections: projects and activities, ADM (Alternative
  Delivery Mode) rows, SLP (school learning progress) rows, reading
  assessments (CRLA, Phil-IRI), RMA (rapid mathematics assessment) rows,
  supervision and PCT (percentage) rows.
- **Review.** A submitted report is reviewed: it can be returned for
  changes or noted.
- **Dashboard.** The SMME KPI dashboard aggregates the reports by school and
  district.

This project models the logic under the request, database and page
plumbing. Database tables and page elements become sequences, maps and
small classes.

- **The form-entry script.** Repeating groups of projects, activities and
  ADM rows, with their `TOTAL_FORMS` counters, the hidden delete bin and
  renumbering. Also the band-sum and enrolment checks, and the serialisers
  and hydrators of the flat hidden fields.
- **The dashboard script.** Its single in-flight request slot, query
  construction, renderer choice, sort toggle and summary tallies. It is a
  sequential state machine of issue, complete and fail events.
- **The server.** Grade-span and grade/subject derivation; reconciliation of
  the row sets a report must have; SLP top-five summaries and
  recommendations; reading periods and difficulty plans; the posted-deletion
  parsing and band-sum rules of the edit view; the form `clean` rules and
  form-code generation; the report lifecycle (draft, submitted, returned,
  noted) with its timeline; completion and progress figures; exports; the
  template tags and the difficulty-plan backfill command.
- **The dashboards.** Filter sanitising, thresholds, paging, placeholder
  rows, district submission gaps, the KPI page context and summary cards.
- **Organizations.** The school-profile and school forms.
- **Accounts and notifications.** Roles, the scoping of schools and reports,
  the permission guards and the post-login redirect; the e-mail queue and its
  sender.

Every operation is given a specification, as a function on values or a
contract on a method. Lemmas prove what the code promises: round trips of
the serialisers, counts that add up, invariants the lifecycle keeps,
idempotence of renumbering and cleaning, orderings and the error cases.

## Model

| member | source | states |
|---|---|---|
| Constants.Invert | submissions/constants.py:22 | the swapped dictionary maps each value back to its key and holds nothing else |
| Constants.FindGrade | submissions/constants.py:40-262 | a grade's subject list is found exactly when the table lists that grade, and it is that grade's list |
| Constants.GradeLabelsInjective | submissions/constants.py:6-20 | the grade-label table covers grades 0 to 12 and no two grades share a label |
| Constants.GradeMapsInverse | submissions/constants.py:6-22 | the label-to-number table and the number-to-label table undo each other |
| Constants.RmaCodesInjective | submissions/constants.py:24-36 | the RMA grade codes cover grades 0 to 10 and no two grades share a code |
| Constants.StrandPrefixes | submissions/constants.py:271-282 | there are ten strands and every strand prefix ends in an underscore |
| Constants.SetDefaultAllKeeps | submissions/constants.py:264-267 | `setdefault` never replaces a label, and the index gains exactly the codes seen |
| Constants.FirstLabelWins | submissions/constants.py:265-267 | the label kept for a code is the one from its first occurrence |
| Constants.FlattenCovers | submissions/constants.py:265-266 | every subject of every grade is visited by the nested loop |
| Constants.SubjectLabelsCover | submissions/constants.py:264-267 | the label index holds "overall" with its label and every subject code of every grade |
| Constants.BuildSubjectLabels | submissions/constants.py:264-267 | the module-level loop builds exactly the label index |
| FormNames.Reindex | static/js/submission-form.js:151-156 | a formset name under the given prefix gets the new index and keeps its field; any other name is unchanged, and a name stays under the prefix exactly when it was |
| FormNames.Without | static/js/submission-form.js:186-187 | the kept inputs are exactly those whose name is not among the removed names, none is invented |
| FormNames.ReplacePair | static/js/submission-form.js:186-190 | clearing both marker names and appending one input of each leaves exactly one input per name, at the end, with every unrelated input kept |
| FormNames.Lookup | static/js/submission-form.js:453 | a value is found exactly when some input has the name, and it is the value of the first such input |
| FormNames.SetFirst | static/js/submission-form.js:491 | only the first input of the name gets the new value; the inputs are otherwise the same and as many |
| FormNames.LookupWithout | static/js/submission-form.js:186-187 | removing inputs of other names does not change what a lookup finds |
| FormNames.LookupSetFirst | static/js/submission-form.js:491 | after setting a name's value, a lookup of that name finds the new value and a lookup of any other name is unchanged |
| ProjectForms.Renumbered | static/js/submission-form.js:147-156 | as many sections as before, each renamed after its own position |
| ProjectForms.HiddenId | static/js/submission-form.js:173 | the section's first hidden id control, or none when the section has no id control |
| ProjectForms.RemoveAt | static/js/submission-form.js:198 | the page without the removed section, the others in their order |
| ProjectForms.RenumberSectionAt | static/js/submission-form.js:148-156 | a renamed section carries its position in its data attribute, every formset name and every id |
| ProjectForms.RenumberedNumbered | static/js/submission-form.js:143-158 | after renumbering every section carries its own position |
| ProjectForms.NumberedFixed | static/js/submission-form.js:143-158 | sections that already carry their positions are left unchanged |
| ProjectForms.RenumberIdempotent | static/js/submission-form.js:143-158 | renumbering twice equals renumbering once, and a page with a counter is consistent afterwards (counter equals section count, every section at its position) |
| ProjectForms.DeleteIdNamesDiffer | static/js/submission-form.js:184-185 | the DELETE marker and the id marker of one index never share a name |
| ProjectForms.PersistedDelete | static/js/submission-form.js:181-196 | deleting a saved project drops its section, keeps the counter, and leaves exactly one DELETE=on and one id marker for its index after all unrelated markers |
| ProjectForms.UnsavedDelete | static/js/submission-form.js:198-201 | as written deleting an unsaved project drops it and sets the counter to the remaining section count, but only the first remaining section's data attribute is reset and no control is renamed |
| ProjectForms.IntendedUnsavedDelete | static/js/submission-form.js:198-201 | as intended deleting an unsaved project drops it, lowers the counter to the remaining section count and renumbers the rest |
| ProjectForms.DeclineChangesNothing | static/js/submission-form.js:178-179 | declining the prompt or unchecking the box only unchecks the box |
| ProjectForms.NewSectionAt | static/js/submission-form.js:221-261 | the section written for index k is numbered k throughout |
| ProjectForms.AddKeepsConsistent | static/js/submission-form.js:218-267 | adding a project to a consistent page keeps it consistent, the new section at index TOTAL_FORMS and the counter one higher |
| ProjectForms.NewSectionUnsaved | static/js/submission-form.js:240 | a freshly added section is not a saved project |
| ProjectForms.AddThenDeleteRestores | static/js/submission-form.js:218-267 | adding a project and then deleting it gives back the page as it was, even with the renumbering as written |
| ProjectForms.RenumberAsWrittenLeavesStaleNames | static/js/submission-form.js:150 | as written, after removing an unsaved first project the remaining one keeps its projects-1- names while the counter says one form |
| ProjectForms.ProjectForm.constructor | static/js/submission-form.js:143-145 | the page starts with the given sections and counter and an empty delete bin |
| ProjectForms.ProjectForm.RenumberProjects | static/js/submission-form.js:143-158 | the new page is the intended renumbering of the old one, which the handler as written does not reach |
| ProjectForms.ProjectForm.RenumberProjectsAsWritten | static/js/submission-form.js:143-150 | the code throws exactly when there is a section, after setting only the counter and the first data attribute |
| ProjectForms.ProjectForm.ToggleProjectDelete | static/js/submission-form.js:169-205 | the new page is the effect of the click as written, for each answer to the prompt, the renumbering of an unsaved project's removal ending where it throws |
| ProjectForms.ProjectForm.AddProjectRow | static/js/submission-form.js:218-267 | the new page is the specified effect of adding a row, nothing without the counter or the container |
| ProjectForms.ProjectForm.RenameFields | static/js/submission-form.js:151-156 | every control of the section is renamed for the new index, in order, none added or dropped |
| ActivityForms.NumberFromAppend | static/js/submission-form.js:283-287 | numbering two runs of rows numbers the second from where the first stopped |
| ActivityForms.NumberKeepsActivities | static/js/submission-form.js:283-287 | renumbering changes header text only, never the activity rows |
| ActivityForms.CleanUpToAllKept | static/js/submission-form.js:305-317 | when every header is followed by an activity row, clean-up removes nothing |
| ActivityForms.ShapedNumbered | static/js/submission-form.js:283-287 | a table of header, activity, details groups is numbered n, n+1, ... group by group |
| ActivityForms.ShapedClean | static/js/submission-form.js:305-317 | orphan clean-up leaves a well-shaped table as it is |
| ActivityForms.ActivityPosition | static/js/submission-form.js:332-333 | in a well-formed table every activity row has its header before it and its details row after it |
| ActivityForms.RemoveGroup | static/js/submission-form.js:368-371 | removing one whole header, activity, details group leaves a well-shaped table with one activity fewer |
| ActivityForms.GroupsAppend | static/js/submission-form.js:483-490 | appending a group numbered one past the activity count keeps the groups numbered in order |
| ActivityForms.FirstIdField | static/js/submission-form.js:336-339 | the control found is one of the row's and its name ends in -id |
| ActivityForms.MarkerNamesDiffer | static/js/submission-form.js:358-359 | the DELETE marker and the id marker of a row never share a name |
| ActivityForms.DeleteMarkers | static/js/submission-form.js:353-366 | a confirmed delete leaves exactly one DELETE=on and one id marker for the row's index, the id empty for an unsaved row, and every other input as it was |
| ActivityForms.DeleteKeepsWellFormed | static/js/submission-form.js:367-371 | on a well-formed table a confirmed delete removes exactly that activity's group and the rest is numbered 1..N-1 with nothing to clean up |
| ActivityForms.DeclineChangesNothing | static/js/submission-form.js:352 | declining the prompt or unchecking the box only unchecks the box |
| ActivityForms.EnsureKeepsLookup | static/js/submission-form.js:454-457 | creating a missing input gives its name the default value and leaves every other lookup alone |
| ActivityForms.EnsureAllKeepsLookup | static/js/submission-form.js:455-457 | creating the other management inputs does not change the value found for a name outside them |
| ActivityForms.ManagementNamesDiffer | static/js/submission-form.js:455-457 | TOTAL_FORMS is never one of the names the other management inputs get |
| ActivityForms.UnsavedProjectAddsNothing | static/js/submission-form.js:450 | a project id that is empty, 'None' or 'null' only raises the alert and changes nothing |
| ActivityForms.AddKeepsWellFormed | static/js/submission-form.js:449-498 | on a well-formed table whose TOTAL_FORMS reads k, the new row gets index k, TOTAL_FORMS becomes k+1 and the table stays well formed |
| ActivityForms.AddedTable | static/js/submission-form.js:458-490 | the table after the add is the old one with the group for index k appended |
| ActivityForms.GrownWellFormed | static/js/submission-form.js:483-490 | appending the new group keeps the header, activity, details shape |
| ActivityForms.ManagedTotal | static/js/submission-form.js:454-458 | creating the management inputs keeps an existing TOTAL_FORMS of k, which the add then sets to k+1 |
| ActivityForms.ActivityForm.constructor | static/js/submission-form.js:283-285 | the page starts with the given tables and hidden inputs |
| ActivityForms.ActivityForm.RenumberActivities | static/js/submission-form.js:283-287 | only the given table changes, its headers numbered 1..N in document order |
| ActivityForms.ActivityForm.CleanSubheaders | static/js/submission-form.js:305-317 | only the given table changes, every header not directly followed by an activity row removed |
| ActivityForms.ActivityForm.ToggleActivityDelete | static/js/submission-form.js:325-382 | the new page is the specified effect of the click for each answer to the prompt |
| ActivityForms.ActivityForm.EnsureManagement | static/js/submission-form.js:454-457 | the four management inputs of the project exist afterwards, the tables untouched |
| ActivityForms.ActivityForm.AddActivityRow | static/js/submission-form.js:449-498 | the outcome reported and the new page are the specified effect of adding a row |
| AdmForms.Instantiate | static/js/submission-form.js:1064 | a control name carrying the placeholder index gets the allocated index; every other name is unchanged |
| AdmForms.InstantiateFields | static/js/submission-form.js:1064 | every control of the template is instantiated, in order, none added or dropped |
| AdmForms.TemplatePrefixIndexed | static/js/submission-form.js:1061 | for a formset-named template control the prefix read off the name is the formset prefix |
| AdmForms.AddNeedsTemplate | static/js/submission-form.js:1055-1060 | with no table body, no template or no named control the add changes nothing |
| AdmForms.AddAllocatesTotal | static/js/submission-form.js:1062-1067 | with TOTAL_FORMS at k the new row is indexed k, every earlier row is kept, and the counter ends at k+1 |
| AdmForms.TwoAddsDiffer | static/js/submission-form.js:1062-1067 | two adds in a row allocate different indices, so no control name of the two new rows clashes |
| AdmForms.AdmDeleteGate | static/js/submission-form.js:1073-1081 | the row stays in the form either way, declining leaves it unchecked and as shown as before, confirming hides it |
| AdmForms.AdmTable.constructor | static/js/submission-form.js:1055-1056 | the table starts in the given state |
| AdmForms.AdmTable.AddAdmPpa | static/js/submission-form.js:1054-1070 | the new table is the specified effect of the add |
| AdmForms.AdmTable.ToggleAdmDelete | static/js/submission-form.js:1073-1081 | the new table is the specified effect of the click for each answer to the prompt |
| Serializers.CleanLines | static/js/submission-form.js:27 | no more lines are kept than there were |
| Serializers.CleanLinesShape | static/js/submission-form.js:27 | every line of the cleaned text is a clean enumerated line |
| Serializers.CleanLinesFixed | static/js/submission-form.js:27 | text made only of clean enumerated lines is kept as it is |
| Serializers.LlcIdempotent | static/js/submission-form.js:23-32 | submitting twice stores the same competencies text as submitting once |
| Serializers.LlcInitial | static/js/submission-form.js:659-666 | a blank competencies textarea gets the four enumerated placeholders, any other text is kept |
| Serializers.CheckedCodes | static/js/submission-form.js:37-38 | the codes of the checked boxes, no more entries than boxes |
| Serializers.InCheckedCodes | static/js/submission-form.js:37-38 | a code is stored exactly when some box with that code is checked |
| Serializers.SerializeReasons | static/js/submission-form.js:34-39 | the hidden reasons value is the checked codes joined by commas |
| Serializers.StoredCodes | static/js/submission-form.js:671 | the codes read back are non-empty and hold no comma |
| Serializers.ReasonsRoundTrip | static/js/submission-form.js:668-671 | non-empty comma-free codes joined by commas split back into the same codes |
| Serializers.FirstWithCode | static/js/submission-form.js:673 | the box found is the first whose value is the code |
| Serializers.Restored | static/js/submission-form.js:672-675 | restoring the codes checks the first box of each code and nothing else changes, as many boxes as before |
| Serializers.ReasonsRestoreSelection | static/js/submission-form.js:668-676 | reloading what was submitted restores exactly the submitted selection when box values are distinct, non-empty and comma-free |
| Serializers.RestoredAt | static/js/submission-form.js:672-675 | each box ends checked exactly when it was submitted checked |
| Serializers.EntriesOf | static/js/submission-form.js:56-60 | one entry per selected reason, in order, each built from that reason |
| Serializers.SerializeInterventions | static/js/submission-form.js:46-62 | the stored text is the JSON array of one code, reason and intervention object per checked reason |
| Serializers.Selected | static/js/submission-form.js:51-55 | the selected reasons are checked boxes, as many as the checked codes |
| Serializers.EntryMembers | static/js/submission-form.js:59 | an entry's code and intervention members are the reason's code and its trimmed intervention text |
| Serializers.FindInEntries | static/js/submission-form.js:752 | the find on the stored entries returns the intervention typed for that code |
| Serializers.ShownPairs | static/js/submission-form.js:735-756 | one numbered pair per selected reason, numbered from the first, each with the reason's label and code |
| Serializers.BuildFromEntries | static/js/submission-form.js:735-756 | building from the stored entries gives the pairs that were meant to be shown |
| Serializers.InterventionsRoundTrip | static/js/submission-form.js:701-757 | reloading what was submitted shows each selected reason, in order, with its number, its label and the intervention typed for its code |
| Serializers.RebuildInterventions | static/js/submission-form.js:701-757 | the pairs built are the specified rebuild of the stored JSON against the current selection |
| Serializers.KeptTexts | static/js/submission-form.js:73-77 | only pairs with some text are kept, each of them with its difficulty or intervention non-empty |
| Serializers.PairJsons | static/js/submission-form.js:76 | one JSON object per kept pair, in order |
| Serializers.SerializeDifficulties | static/js/submission-form.js:64-103 | the stored text is the JSON of one grade entry per block with its kept pairs |
| Serializers.FillPairs | static/js/submission-form.js:777-784 | a successful fill keeps the number of pairs |
| Serializers.FirstGrade | static/js/submission-form.js:774 | the block found is one with that grade |
| Serializers.ApplyEntry | static/js/submission-form.js:773-785 | applying an entry keeps the blocks and their grades |
| Serializers.ApplyEntries | static/js/submission-form.js:773-785 | applying all entries keeps the blocks and their grades |
| Serializers.UnparseableLeavesForm | static/js/submission-form.js:772 | unparseable or empty storage leaves every textarea as rendered |
| Serializers.Refill | static/js/submission-form.js:777-784 | the first saved pairs fill the first textareas and the rest keep their text |
| Serializers.FillPairsJson | static/js/submission-form.js:777-784 | filling from the stored JSON pairs refills exactly those pairs |
| Serializers.DifficultiesRoundTrip | static/js/submission-form.js:768-786 | reloading a submitted plan puts back in every grade block the trimmed non-blank pairs in order, moved up into the first textareas |
| Serializers.RefillIdentity | static/js/submission-form.js:768-786 | a block whose pairs are all filled with trimmed text comes back exactly as it was |
| ProficiencyChecks.InputCount | static/js/submission-form.js:525-529 | a missing band input counts as 0, a present one as its parsed count |
| ProficiencyChecks.CountOfNat | static/js/submission-form.js:524-529 | a count written out in decimal reads back as that count |
| ProficiencyChecks.DashFrom | static/js/submission-form.js:539 | the position found is the first " - " at or after the start, or the end of the text |
| ProficiencyChecks.HeaderGrade | static/js/submission-form.js:535-541 | a header "<grade> - <subject>" yields its grade when the grade has no " - " |
| ProficiencyChecks.PanelBanner | static/js/submission-form.js:543-571 | a panel shows one banner exactly when its bands miss a positive enrolment, that banner carries the grade, the sum and the enrolment, the band inputs are flagged exactly then, and the long-form messages stay hidden |
| ProficiencyChecks.ConsistentPanelIsQuiet | static/js/submission-form.js:543-571 | bands that add up to the enrolment raise no banner and flag no input |
| ProficiencyChecks.SubjectPanel.constructor | static/js/submission-form.js:515-523 | the panel starts in the given state |
| ProficiencyChecks.SubjectPanel.UpdateProficiencyDisplay | static/js/submission-form.js:515-572 | the new panel is the specified refresh of the old one |
| ProficiencyChecks.SubjectPanel.MarkInputs | static/js/submission-form.js:543-552 | the band inputs are flagged exactly on a mismatch, the long-form container shows the message on a mismatch and is hidden otherwise, and nothing else changes |
| ProficiencyChecks.SubjectPanel.ShowBanner | static/js/submission-form.js:555-571 | the old banner goes, a mismatch puts one new banner with the message and hides the long-form container, the section's error class follows the mismatch, and nothing else changes |
| ProficiencyChecks.Findings | static/js/submission-form.js:871-883 | one finding per RMA row, each the row's own |
| ProficiencyChecks.CollectSound | static/js/submission-form.js:869-885 | the errors name rows in increasing order, each with that row's message |
| ProficiencyChecks.CollectComplete | static/js/submission-form.js:869-885 | a row is reported exactly when it has a finding |
| ProficiencyChecks.RmaErrorsExact | static/js/submission-form.js:869-885 | each RMA row is reported at most once, in row order, exactly when its bands miss a positive enrolment, with that row's message |
| ProficiencyChecks.RmaTable.constructor | static/js/submission-form.js:917 | the table starts with the given rows and banners and no outlines |
| ProficiencyChecks.RmaTable.SumBands | static/js/submission-form.js:878 | the sum is the total of the row's band counts |
| ProficiencyChecks.RmaTable.ValidateRmaEnrollment | static/js/submission-form.js:869-885 | the errors returned are the specified RMA findings |
| ProficiencyChecks.RmaTable.Redraw | static/js/submission-form.js:918-936 | the rows stay, the outlines are exactly the rows in error with their messages, and one banner shows the first message when there is an error and a host |
| ProficiencyChecks.OutlinesKeys | static/js/submission-form.js:925 | a row is outlined exactly when an error names it |
| ProficiencyChecks.OutlinedExactly | static/js/submission-form.js:918-936 | after a redraw exactly the rows whose bands miss a positive enrolment are outlined |
| ProficiencyChecks.SlpEnrolment | static/js/submission-form.js:853-867 | every enrolment in the map is positive |
| ProficiencyChecks.FirstEnrolmentWins | static/js/submission-form.js:853-867 | a grade is in the map exactly when some input gives it a positive enrolment, and then it holds the first such enrolment |
| ProficiencyChecks.KeyFrom | static/js/submission-form.js:898 | the entry found is the first with that key at or after the start, or the end |
| ProficiencyChecks.TotalsKeys | static/js/submission-form.js:892-899 | the totals have one entry per grade that some CRLA input counts for |
| ProficiencyChecks.AccumulateKeys | static/js/submission-form.js:898 | adding to a grade's total keeps every other grade and adds that one |
| ProficiencyChecks.AccumulateDistinct | static/js/submission-form.js:898 | adding to a total never duplicates a grade |
| ProficiencyChecks.TotalsSums | static/js/submission-form.js:892-899 | each grade's entry holds the sum of its CRLA inputs |
| ProficiencyChecks.FlagsExact | static/js/submission-form.js:900-904 | a grade is flagged exactly when one of its entries is reported |
| ProficiencyChecks.ReadingFlagsExactly | static/js/submission-form.js:887-906 | no SLP data gives no findings; otherwise a grade is flagged exactly when it has a positive SLP enrolment, some CRLA input and a CRLA total different from that enrolment |
| ProficiencyChecks.GetSlpEnrollmentData | static/js/submission-form.js:853-867 | the map built is the specified first-positive-enrolment map |
| ProficiencyChecks.ValidateReadingEnrollment | static/js/submission-form.js:887-906 | the errors returned are the specified reading findings |
| GradeDisplay.CompletedAtMostOffered | static/js/submission-form.js:579-583 | no more subjects are complete than are offered and shown, and no more are offered than there are |
| GradeDisplay.RoundedPercent | static/js/submission-form.js:584 | 0 without offered subjects; otherwise the whole percentage nearest to completed over total, halves rounded up |
| GradeDisplay.PercentRange | static/js/submission-form.js:584 | with completed at most total the percentage lies in 0..100, is 100 when every subject is complete and 0 when none is |
| GradeDisplay.Tally | static/js/submission-form.js:579-583 | the counts are the complete and offered counts of the shown subjects, completed at most total at most the subjects |
| GradeDisplay.HideAll | static/js/submission-form.js:606-610 | every subject of the block is judged against the unselected prefixes, in order |
| GradeDisplay.HidingOnlyHides | static/js/submission-form.js:602-612 | hiding keeps every subject's key, offer and completion; a hidden subject stays hidden; grades other than 11 and 12 are untouched; in those a subject ends hidden exactly when it was hidden or its key starts with an unselected prefix |
| GradeDisplay.NothingToHide | static/js/submission-form.js:594-601 | an empty, missing or unparseable list, or a page without the form, changes nothing |
| GradeDisplay.HidingLowersCounts | static/js/submission-form.js:602-612 | hiding never raises a block's offered or completed count |
| GradeDisplay.AnyPrefixMatches | static/js/submission-form.js:608 | the loop's answer is whether some truthy entry of the list is a prefix of the key |
| GradeDisplay.GradePage.constructor | static/js/submission-form.js:593-595 | the page starts in the given state |
| GradeDisplay.GradePage.RecalcGradeCompletionFor | static/js/submission-form.js:575-591 | only the given block changes, to its recalculated stats |
| GradeDisplay.GradePage.HideMatching | static/js/submission-form.js:606-610 | the subjects after the loop are the specified hiding of the block |
| GradeDisplay.GradePage.ApplyUnselectedStrandHiding | static/js/submission-form.js:593-613 | the blocks after the pass are the specified hiding for the unselected list read from the form |
| GradeDisplay.GradeToNumOfLabel | static/js/submission-form.js:1288-1295 | "Grade <n>" reads back as n |
| GradeDisplay.GradeLabelsSpelled | submissions/constants.py:6-20 | grade 0 is labelled "Kinder" and grades 1 to 12 are labelled "Grade <n>" |
| GradeDisplay.KinderReadsBack | static/js/submission-form.js:1291 | "Kinder" reads back as 0 |
| GradeDisplay.GradeTableReadsBack | static/js/submission-form.js:1288-1295 | every label of the grade table reads back as its grade number |
| DashboardClient.Keep | static/js/dashboard/smme_kpi_dashboard.js:149 | the pairs of the other names, in order, never more than there were |
| DashboardClient.GetKeep | static/js/dashboard/smme_kpi_dashboard.js:149 | dropping pairs of other names does not change what a name reads |
| DashboardClient.KeepTwice | static/js/dashboard/smme_kpi_dashboard.js:149 | dropping a set of names and then a larger set is dropping the larger set |
| DashboardClient.SetParamGets | static/js/dashboard/smme_kpi_dashboard.js:149 | after set, the name reads the new value and every other name its old first value |
| DashboardClient.SetParamSingle | static/js/dashboard/smme_kpi_dashboard.js:149 | after set, exactly one pair carries the name |
| DashboardClient.SetParamKeeps | static/js/dashboard/smme_kpi_dashboard.js:149 | set leaves every pair of the other names, in order |
| DashboardClient.RequestCarriesForm | static/js/dashboard/smme_kpi_dashboard.js:147-149 | every request asks for page 1 of size 10000, once each, and carries every other filter entry unchanged and in order |
| DashboardClient.PageSurvives | static/js/dashboard/smme_kpi_dashboard.js:149 | setting page_size does not disturb the page values |
| DashboardClient.NumberOfIntText | static/js/dashboard/smme_kpi_dashboard.js:29 | an integer, as a number or as its decimal text, is read as that number |
| DashboardClient.DecimalTextReadsBack | static/js/dashboard/smme_kpi_dashboard.js:29 | the text a one-decimal number shows (no fraction when whole, "-7.5", "74.5") is read back by `Number` as that same value |
| DashboardClient.PerfOf | static/js/dashboard/smme_kpi_dashboard.js:28-30 | the class of a real percentage is high exactly from 75, medium exactly from 50 below 75, low otherwise, and NaN is low |
| DashboardClient.PerfMonotone | static/js/dashboard/smme_kpi_dashboard.js:28-30 | a higher real percentage never gets a lower class |
| DashboardClient.PerfOfDecimal | static/js/dashboard/smme_kpi_dashboard.js:28-30 | the one-decimal percentages the API sends are classed by their value: 74.5 (as a number or as text) is medium, 75.0 high, 49.9 low |
| DashboardClient.RendererChoice | static/js/dashboard/smme_kpi_dashboard.js:152-160 | a string view always has a renderer, the overview exactly when it is none of the named views; any other value throws |
| DashboardClient.ViewFallback | static/js/dashboard/smme_kpi_dashboard.js:152 | the view used is always truthy, and with neither the reply's view nor the kpi_part filter it is rendered as the overview |
| DashboardClient.BandsRow | static/js/dashboard/smme_kpi_dashboard.js:94 | no row exactly when the result is `null`, whose `school_name` throws; otherwise one cell for the school, one for the district and one per band |
| DashboardClient.BandsTable | static/js/dashboard/smme_kpi_dashboard.js:92-96 | the render fails exactly when some result is `null`; otherwise the table is well formed with the school, district and band headers, and has body rows exactly when there are results, each starting with its result's school and district |
| DashboardClient.ImplementationRow | static/js/dashboard/smme_kpi_dashboard.js:83 | no row exactly when the result is `null`; otherwise one cell per implementation column, starting with the school and district |
| DashboardClient.OverviewRow | static/js/dashboard/smme_kpi_dashboard.js:87 | no row exactly when the result is `null`; otherwise one cell per overview column, starting with the school and district |
| DashboardClient.OverviewTable | static/js/dashboard/smme_kpi_dashboard.js:78-89 | the render fails exactly when some result is `null`; otherwise the implementation columns when kpi_part reads 'implementation', the overview columns otherwise, a well-formed table with body rows exactly when there are results |
| DashboardClient.RowsTable | static/js/dashboard/smme_kpi_dashboard.js:82-96 | the map over the results fails exactly when one of them is `null`; otherwise a well-formed table with one body row per result, or the no-data row without results |
| DashboardClient.Render | static/js/dashboard/smme_kpi_dashboard.js:78-96 | the chosen renderer fails exactly when some result is `null` |
| DashboardClient.SchoolKeysExact | static/js/dashboard/smme_kpi_dashboard.js:102 | a key is counted exactly when some row is keyed by it |
| DashboardClient.SchoolKeysBound | static/js/dashboard/smme_kpi_dashboard.js:102-103 | the schools card never exceeds the data-points card |
| DashboardClient.SchoolKeysDistinct | static/js/dashboard/smme_kpi_dashboard.js:102-103 | with one row per school the two cards agree |
| DashboardClient.SummaryTally | static/js/dashboard/smme_kpi_dashboard.js:99-105 | the cards hold the number of distinct school keys and the number of rows |
| DashboardClient.Contribution | static/js/dashboard/smme_kpi_dashboard.js:127-128 | a reason's contribution (a real, so one-decimal values count too) is never negative and positive exactly when its value is |
| DashboardClient.ReasonSchoolsExact | static/js/dashboard/smme_kpi_dashboard.js:124-128 | a school counts under a reason exactly when one of its rows has a positive value for it |
| DashboardClient.ReasonSchoolsWithin | static/js/dashboard/smme_kpi_dashboard.js:121-128 | every school counted under a reason is among the distinct schools, so no reason's count exceeds theirs |
| DashboardClient.SlopTotalAppend | static/js/dashboard/smme_kpi_dashboard.js:128 | the totals of two batches of rows add up |
| DashboardClient.RowsConsideredBound | static/js/dashboard/smme_kpi_dashboard.js:130 | no more rows are considered than there are |
| DashboardClient.VecMeaning | static/js/dashboard/smme_kpi_dashboard.js:120-131 | the two objects hold, code by code, the sum of positive values and the set of schools having one |
| DashboardClient.Sizes | static/js/dashboard/smme_kpi_dashboard.js:135 | each school count is the size of its set |
| DashboardClient.SlopRefreshedMeaning | static/js/dashboard/smme_kpi_dashboard.js:108-140 | the block is hidden exactly without results, and otherwise shows code by code the positive totals and the distinct-school counts, never more than all distinct schools, nor more rows than there are |
| DashboardClient.RowReasons | static/js/dashboard/smme_kpi_dashboard.js:126-129 | one row's contribution is added to the totals and school sets, and whether it had any reason is reported |
| DashboardClient.SlopTally | static/js/dashboard/smme_kpi_dashboard.js:120-131 | the totals, school sets, considered rows and distinct schools are those of all the results |
| DashboardClient.ToggledDir | static/js/dashboard/smme_kpi_dashboard.js:179 | the new direction is asc or desc: asc on a new column, and on the same column desc exactly after asc |
| DashboardClient.SortTwice | static/js/dashboard/smme_kpi_dashboard.js:179 | clicking the same header twice restores the direction it had |
| DashboardClient.SortClickRequest | static/js/dashboard/smme_kpi_dashboard.js:176-181 | the request a header click sends asks for the sort_by and sort_dir it has just chosen, and for every other filter as the form holds it |
| DashboardClient.IssuedValid | static/js/dashboard/smme_kpi_dashboard.js:143-149 | a request keeps the page's invariant, stores its own controller after aborting the previous one, and is in flight with the request parameters |
| DashboardClient.SettledValid | static/js/dashboard/smme_kpi_dashboard.js:150-165 | delivering an outcome keeps the page's invariant |
| DashboardClient.SettleOutcome | static/js/dashboard/smme_kpi_dashboard.js:150-165 | a live request shows exactly one region, the rendered table with the URL and export link set to its params, or the server region with the URL untouched; a superseded request changes nothing visible |
| DashboardClient.ReplyMeaning | static/js/dashboard/smme_kpi_dashboard.js:145-166 | a rendered reply holds no `null` result and a well-formed table with body rows exactly when there are results; a 2xx reply whose results hold a `null` fails |
| DashboardClient.DebouncedValid | static/js/dashboard/smme_kpi_dashboard.js:171 | each change or qualifying input leaves exactly the new timer armed |
| DashboardClient.FiredValid | static/js/dashboard/smme_kpi_dashboard.js:171 | a firing timer issues a request and leaves no timer armed, the invariant kept |
| DashboardClient.AbortedFailureShowsBoth | static/js/dashboard/smme_kpi_dashboard.js:147-165 | as written, a second request issued before the first settles ends with both the server and the client region shown |
| DashboardClient.DashboardPage.constructor | static/js/dashboard/smme_kpi_dashboard.js:143 | the page starts in the given state |
| DashboardClient.DashboardPage.Issue | static/js/dashboard/smme_kpi_dashboard.js:144-149 | the new state is the specified start of a request |
| DashboardClient.DashboardPage.Settle | static/js/dashboard/smme_kpi_dashboard.js:150-165 | the new state is the specified delivery of the outcome, a superseded request only leaving the in-flight set |
| DashboardClient.DashboardPage.UpdateSlopSummary | static/js/dashboard/smme_kpi_dashboard.js:163 | the SLOP block is refreshed from the results on the slp view and hidden otherwise |
| DashboardClient.DashboardPage.Debounce | static/js/dashboard/smme_kpi_dashboard.js:171 | the timers are the specified debounce of the old ones |
| DashboardClient.DashboardPage.Input | static/js/dashboard/smme_kpi_dashboard.js:174 | only number, text and select inputs debounce |
| DashboardClient.DashboardPage.Fire | static/js/dashboard/smme_kpi_dashboard.js:171 | the new state is the request the timer issues |
| DashboardClient.DashboardPage.SortClick | static/js/dashboard/smme_kpi_dashboard.js:176-181 | the new state is the specified sort toggle and the request it sends, the filter form read with the sort inputs the click has just written |
| GradeSpans.GradeKeys | submissions/constants.py:6-20 | the grade table's keys are exactly the grades 0 to 12 |
| GradeSpans.MappedRange | submissions/views.py:127 | the grades listed are exactly those of the range in the table, consecutive from the clamped start |
| GradeSpans.GradeNumbersForSchool | submissions/views.py:121-127 | the school's grades are exactly its listed grades, consecutive and increasing |
| GradeSpans.ProfileSpanFirst | submissions/views.py:108-118 | a profile span wins over the school's own minimum and maximum |
| GradeSpans.SpanWithinTable | submissions/views.py:121-127 | a span inside 0..12 lists exactly its own grades, in order |
| GradeSpans.LabelsFor | submissions/views.py:131 | no more labels than grades, one per grade when every grade is in the table |
| GradeSpans.SlpGradeLabelsForSchool | submissions/views.py:130-131 | one label per listed grade, each that grade's label |
| GradeSpans.SlpLabelsOrdered | submissions/views.py:130-131 | the school's SLP labels are the labels of its listed grades, in increasing grade order |
| GradeSpans.SubjectsIn | submissions/views.py:134-138 | a grade always has at least one subject, the default when its list is missing or empty |
| GradeSpans.PairsForLabel | submissions/views.py:145-146 | one pair per subject of the grade, each the label with that subject's code |
| GradeSpans.GradeSubjectPairs | submissions/views.py:141-150 | at least one pair, and exactly the fallback pair when the school lists no grade |
| GradeSpans.PairsMembership | submissions/views.py:141-150 | the pairs are, for each of the school's grades, one per subject of that grade, and the fallback pair only when the school lists no grade |
| GradeSpans.EveryGradeHasSubjects | submissions/constants.py:40-262 | every grade 0 to 12 has its own non-empty subject list, so the default subject is never used for a listed grade |
| GradeSpans.FindGradeFirst | submissions/constants.py:264-267 | a lookup finds the list of the first entry for the grade |
| GradeSpans.RmaCodesListed | submissions/constants.py:24-36 | eleven RMA codes, one for each grade from kinder to grade 10 |
| GradeSpans.RmaNumbers | submissions/views.py:294-296 | the grades kept are exactly those with an RMA code, in the same increasing order |
| GradeSpans.CodesOf | submissions/views.py:296 | each grade's RMA code, in order |
| GradeSpans.RmaGradeLabelsForSchool | submissions/views.py:292-299 | at least one code: those of the school's grades with a code, in order, or every code when none has one |
| GradeSpans.RmaLabelsMeaning | submissions/views.py:292-299 | the codes listed are those of the school's listed grades up to grade 10, each once and in grade order |
| GradeSpans.RmaNumberOf | submissions/views.py:224-226 | a code found is the code of the grade returned |
| GradeSpans.RmaCodeShape | submissions/constants.py:24-36 | every RMA code is one to three characters starting with k or g |
| GradeSpans.RmaNumberOfCode | submissions/views.py:224-226 | each code is found at its own grade |
| GradeSpans.LabelInitial | submissions/constants.py:6-20 | every SLP grade label starts with K or G |
| GradeSpans.NotALabel | submissions/constants.py:6-20 | text starting with anything but K or G is no SLP grade label |
| GradeSpans.SkipSpaces | submissions/views.py:231 | the text after the leading whitespace, starting with a non-space |
| GradeSpans.FirstWord | submissions/views.py:231 | the longest prefix without whitespace |
| GradeSpans.GradeNumberForLabel | submissions/views.py:213-236 | an unknown label, neither a grade label, an RMA code, "grade ..." nor "kinder", orders as 999 |
| GradeSpans.SlpLabelNumber | submissions/views.py:221-222 | each SLP grade label reads back as its own grade |
| GradeSpans.RmaCodeNumber | submissions/views.py:224-226 | each RMA code reads back as its own grade |
| GradeSpans.SpelledGradeNumber | submissions/views.py:229-231 | "grade N" reads as N |
| GradeSpans.KinderNumber | submissions/views.py:232-233 | a label that is "kinder" once lower-cased and stripped, and neither a grade label nor an RMA code, reads as 0 |
| GradeSpans.DisplayKeepsOrder | submissions/views.py:152-158 | showing a label as its SLP grade label keeps its ordering key |
| GradeSpans.DisplayOfCode | submissions/views.py:155-157 | each RMA code is shown as its grade's SLP label |
| GradeSpans.ProfileGradeSpanLabel | organizations/models.py:82-85 | the profile label is empty exactly when a span end is missing |
| GradeSpans.SpanLabelAgrees | organizations/models.py:50-59 | the label a school shows is empty exactly when it has no span, otherwise G<start>-G<end> of the span the grade lists use, and a profile span shows as the profile's own label |
| ServerRows.MapOfferedMeaning | submissions/views.py:173-175 | every value comes from an offered row and every offered row gives one |
| SlpRanking.PctTenths | submissions/views.py:255 | 0 without enrolment; otherwise the tenths of a percent nearest to the exact ratio |
| SlpRanking.KeyIndex | submissions/views.py:266 | the position found holds the key, and none is found only when no group has it |
| SlpRanking.KeysOf | submissions/views.py:269 | the group keys, in order |
| SlpRanking.AddToExisting | submissions/views.py:266 | appending to an existing group keeps the grouping exact |
| SlpRanking.AddToNew | submissions/views.py:266 | opening a group for a new key keeps the grouping exact |
| SlpRanking.GroupByMeaning | submissions/views.py:249-266 | the groups hold, per subject, exactly that subject's entries in row order, each subject once |
| SlpRanking.GroupNonEmpty | submissions/views.py:266 | every group holds at least one entry |
| SlpRanking.ByCountDown | submissions/views.py:271 | a total preorder that puts higher counts first |
| SlpRanking.ByGrade | submissions/views.py:275 | a total preorder that puts lower grades first |
| SlpRanking.PrefixFirst | submissions/views.py:271-272 | in a sorted list every element of a prefix precedes every element after it |
| SlpRanking.TopByCountMeaning | submissions/views.py:271-272 | the first five by count are min(5, n) of the entries, none with a lower count than an entry left out |
| SlpRanking.Top5Meaning | submissions/views.py:270-275 | the Top 5 keeps min(5, n) of a subject's entries, never one with a lower count than an entry it drops, listed by grade when asked to |
| SlpRanking.MinOrder | submissions/views.py:277 | 999 for no entries, else the lowest grade among them |
| SlpRanking.BySubjectKey | submissions/views.py:284 | a total preorder by lowest grade, then subject name |
| SlpRanking.Unkeyed | submissions/views.py:285 | each subject with its Top 5, the ordering key dropped |
| SlpRanking.SortedGroupsCover | submissions/views.py:268-284 | the sorted list holds each subject's keyed group and nothing else |
| SlpRanking.SortedGroupsDistinct | submissions/views.py:284 | no subject appears twice |
| SlpRanking.TopSummaryMeaning | submissions/views.py:239-285 | one list per subject with an offered row, holding that subject's Top 5, subjects ordered by the lowest grade of their Top 5 and then by name |
| SlpRanking.GroupRows | submissions/views.py:250-266 | the first loop's groups are the grouping of the offered rows' entries |
| SlpRanking.KeyAll | submissions/views.py:268-281 | the second loop's list holds every group, in order, with its Top 5 and the lowest grade of that Top 5 |
| SlpRanking.ShowAll | submissions/views.py:285 | the summary is the sorted groups without their keys |
| SlpRanking.BuildTopSummary | submissions/views.py:239-285 | the summary built is the specified Top 5 summary |
| SlpRanking.OtherSubjectKeeps | submissions/views.py:192 | a later candidate of another subject keeps a choice |
| SlpRanking.WeakerKeeps | submissions/views.py:197-202 | a later candidate that does not beat the choice keeps it |
| SlpRanking.StrongerWins | submissions/views.py:197-202 | a later candidate that beats the choice becomes the choice |
| SlpRanking.NewSubjectWins | submissions/views.py:193-195 | the first candidate of a subject is its choice |
| SlpRanking.OfferExisting | submissions/views.py:192-202 | a candidate of a subject already seen replaces the kept one only when it beats it |
| SlpRanking.BestOfMeaning | submissions/views.py:172-202 | the first loop keeps, per subject, exactly its first candidate with the highest percentage, then count, then lowest grade |
| SlpRanking.PickAllMeaning | submissions/views.py:206-207 | looking up keys that all exist returns their values in order |
| SlpRanking.KeysOfBest | submissions/views.py:206 | the kept subjects are those of the candidates, once each |
| SlpRanking.SortedNames | submissions/views.py:206 | sorting the kept subjects lists each once, in increasing order |
| SlpRanking.ChosenMeaning | submissions/views.py:204-210 | one candidate per subject, in strictly increasing subject order, each the first greatest of its subject |
| SlpRanking.RecommendationsMeaning | submissions/views.py:165-210 | one recommendation per subject with an offered row, in strictly increasing subject order, each the first greatest candidate of its subject |
| SlpRanking.ChooseBest | submissions/views.py:172-202 | the first loop's table is the specified choice per subject |
| SlpRanking.PickSorted | submissions/views.py:205-210 | the second loop returns the kept candidates by sorted subject, the ordering key dropped |
| SlpRanking.BuildRecommendations | submissions/views.py:165-210 | the result is the specified recommendations |
| Reconcile.KeysInMeaning | submissions/views.py:313-316 | a key is present exactly when some row has it |
| Reconcile.MissingMeaning | submissions/views.py:318-319 | a key is missing exactly when it is required and not present |
| Reconcile.Kept | submissions/views.py:332-334 | the rows left are exactly those whose key is required, never more than before |
| Reconcile.ReconciledKeys | submissions/views.py:312-334 | after reconciling, the keys present are exactly the required keys |
| Reconcile.ReconciledRows | submissions/views.py:312-334 | a row is there afterwards exactly when it was there with a required key or it is the fresh row of a required key that was absent |
| Reconcile.ReconciledIdempotent | submissions/views.py:312-334 | reconciling twice gives what reconciling once gives |
| Reconcile.KeptAll | submissions/views.py:332-334 | when every key is required nothing is deleted |
| Reconcile.ReconciledKeepsOld | submissions/views.py:312-334 | a row with a required key survives unchanged; reconciling never edits a row |
| Reconcile.AddedPrefix | submissions/views.py:447-484 | get_or_create keeps every existing row in place and only appends |
| Reconcile.AddedKeys | submissions/views.py:447-484 | get_or_create adds exactly the required keys |
| Reconcile.AddedDistinct | submissions/views.py:447-484 | get_or_create never gives two rows the same key when none shared one |
| Reconcile.Table.constructor | submissions/views.py:313-316 | the table starts with the given rows |
| Reconcile.Table.Ensure | submissions/views.py:312-334 | the rows after the call are the reconciliation of the old rows |
| Reconcile.Table.GetOrCreate | submissions/views.py:448-460 | the rows after the call are the old ones with the key added if it was absent |
| Reconcile.Table.EnsureOne | submissions/views.py:423-425 | an empty table gets the one default row, a non-empty one is unchanged |
| Reconcile.GetOrCreateAll | submissions/views.py:447-460 | the rows after the loop are the old ones with every absent key added, in order |
| Reconcile.EnsurePctRows | submissions/views.py:302-309 | the action-area rows are reconciled against the action areas: one per area and no other |
| Reconcile.NewSlpRow | submissions/views.py:320-331 | a created SLP row is offered, has the requested key, no enrolment and no learner in any band |
| Reconcile.EnsureSlpRows | submissions/views.py:312-334 | the SLP rows are reconciled against the school's (grade label, subject) pairs |
| Reconcile.EnsureSlpTopEntries | submissions/views.py:399-404 | the entries are reconciled against positions 1 to 5 |
| Reconcile.EnsureFixedOrderInterventions | submissions/views.py:407-412 | the interventions are reconciled against orders 1 to 5 |
| Reconcile.EnsureRmaRows | submissions/views.py:415-420 | the RMA rows are reconciled against the school's RMA grade codes |
| Reconcile.EnsureSupervisionRows | submissions/views.py:423-425 | one blank supervision row is created only when there is none |
| Reconcile.EnsureAdmRows | submissions/views.py:428-435 | an offered header when there is none and one blank row when there is none; what exists is left alone |
| Reconcile.EnsureReadingAssessments | submissions/views.py:438-484 | every CRLA and PHILIRI level of the period exists afterwards, created with zero counts, existing rows untouched |
| Reconcile.PlanKeys | submissions/views.py:503-510 | the plan keys are those of the listed grades that have an RMA code, skipping every other number |
| Reconcile.EnsureReadingDifficultyPlans | submissions/views.py:498-516 | a plan exists afterwards for each listed grade with a code, existing plans untouched |
| Reconcile.StrandOfSubject | submissions/views.py:364-367 | the strand found is one whose prefix starts the subject code, and none means no strand prefix does |
| Reconcile.StrandDefault | submissions/views.py:351-377 | the default only switches off an offered empty row of an unlisted strand in grade 11 or 12; key, counts and text untouched; a row with data, already off, or of a listed strand is never changed; applying it twice is applying it once |
| Reconcile.ApplyShsStrandDefaults | submissions/views.py:337-379 | every SLP row is replaced by its strand default, no row added or removed |
| DifficultyPlans.ReadingPeriodFor | submissions/views.py:519-534 | the period is always one of bosy/mosy/eosy, and it is the template's override whenever that override is a period |
| DifficultyPlans.DerivePeriodAgrees | submissions/management/commands/backfill_reading_difficulty_plans.py:93-97 | the backfill command derives the same reading period for every quarter and override as the editor does |
| DifficultyPlans.FieldText | submissions/views.py:565-566 | a field that is read successfully comes back with no surrounding white space |
| DifficultyPlans.PairStep | submissions/views.py:562-572 | a pair that is kept is clean: not both fields blank, each field stripped and at most 500 characters, and it is cut from the stripped fields of the pair; the step raises exactly for an object whose field is a truthy non-string |
| DifficultyPlans.CleanedPairsClean | submissions/views.py:560-572 | every pair the inner loop keeps is clean, and there are no more kept pairs than items |
| DifficultyPlans.PairItems | submissions/views.py:560-562 | at most five pair items are looked at |
| DifficultyPlans.EntryStep | submissions/views.py:551-572 | an entry that is not an object raises; an entry that is kept names the RMA code of a grade 0..10 whose number is the entry's grade, with at most five clean pairs; a well-formed entry of grade 0..10 is always kept |
| DifficultyPlans.CleanPairs | submissions/views.py:562-572 | the loop raises exactly when the reference cleaning raises, and otherwise returns its cleaned pairs |
| DifficultyPlans.CleanEntry | submissions/views.py:551-572 | the loop-based step gives the reference step's result for every entry |
| DifficultyPlans.StorePlanMeaning | submissions/views.py:573-586 | storing a plan changes only the plan of that key, which then holds the data, and keeps the keys distinct |
| DifficultyPlans.StoreOne | submissions/views.py:573-586 | get_or_create followed by a write only when the data differs leaves the table as the reference store does |
| DifficultyPlans.SyncedMeaning | submissions/views.py:537-586 | the sync keeps every existing row's key, touches only plans of the given period, stores only clean data of at most five pairs, adds plans only for grades 0..10, and keeps keys distinct |
| DifficultyPlans.SyncedRaise | submissions/views.py:551-557 | once the sync has raised, the later entries change nothing |
| DifficultyPlans.SyncDifficultyPlans | submissions/views.py:537-586 | the rows after the loop are those the reference sync gives for the old rows, period and parsed entries |
| DifficultyPlans.PlanData | submissions/views.py:573-579 | a plan's data is found exactly when a plan of that key exists |
| DifficultyPlans.DryRunCreatesPlan | submissions/management/commands/backfill_reading_difficulty_plans.py:77-89 | as written, a dry run still creates the plan of a grade that has none |
| DifficultyPlans.BackfillStoreAsWritten | submissions/management/commands/backfill_reading_difficulty_plans.py:77-89 | as written a dry run counts nothing and changes no plan, only appending one exactly when none has the key; a plan is counted exactly when a non-dry run finds one whose data differ |
| DifficultyPlans.PlanDataOfKey | submissions/management/commands/backfill_reading_difficulty_plans.py:77-82 | with distinct keys the plan of a key is the one whose data are read |
| DifficultyPlans.StoreAgrees | submissions/management/commands/backfill_reading_difficulty_plans.py:77-89 | outside a dry run the store as written and the intended one agree on plans and count, the keys being distinct |
| DifficultyPlans.BackfillStore | submissions/management/commands/backfill_reading_difficulty_plans.py:77-89 | as intended, a dry run writes nothing and counts nothing; otherwise the plan of the key ends up holding the data, as the editor's store leaves it, counted exactly when an existing plan held other data |
| DifficultyPlans.DryRunEntriesOnlyAdd | submissions/management/commands/backfill_reading_difficulty_plans.py:56-89 | as written a dry run over one submission's entries only appends plans, keeping every existing one, and counts no update |
| DifficultyPlans.DryRunOnlyAdds | submissions/management/commands/backfill_reading_difficulty_plans.py:45-90 | as written a dry run over any submissions keeps each one, its existing plans untouched and new ones only appended, and counts no update |
| DifficultyPlans.BackfillMeaning | submissions/management/commands/backfill_reading_difficulty_plans.py:32-91 | a bad forced period is rejected before anything is touched; a run keeps every submission in order, counts at most one processed submission each, and on a dry run changes no existing plan and counts no update |
| DifficultyPlans.EntriesRaise | submissions/management/commands/backfill_reading_difficulty_plans.py:56-57 | once an entry has raised, the later entries change nothing |
| DifficultyPlans.RunRaise | submissions/management/commands/backfill_reading_difficulty_plans.py:45-90 | once the command has raised, the remaining submissions pass through unchanged |
| DifficultyPlans.BackfillSubmissionPlans | submissions/management/commands/backfill_reading_difficulty_plans.py:56-89 | the loop over one submission's entries ends in the state the command as written reaches |
| DifficultyPlans.ProcessSubmissions | submissions/management/commands/backfill_reading_difficulty_plans.py:45-90 | the loop over the selected submissions ends in the state the command as written reaches |
| DifficultyPlans.RunBackfill | submissions/management/commands/backfill_reading_difficulty_plans.py:32-91 | the command's outcome is that of the command as written for the submissions, forced period, dry-run flag and limit |
| SubmissionEdit.GetMeaning | submissions/views.py:1243 | a name is found in the posted body exactly when some pair carries it, and the value read is that of the last such pair |
| SubmissionEdit.MarksMeaning | submissions/views.py:1233-1250 | an id is gathered exactly when a checked DELETE marker of the formset has an id field holding it as a nonzero integer; the flag is raised exactly when some checked marker was posted, with an id or not |
| SubmissionEdit.CollectMarks | submissions/views.py:1233-1250 | the pass over the posted body gathers the reference markers of the formset |
| SubmissionEdit.CountersMeaning | submissions/views.py:1258-1262 | a formset has a counter exactly when a counter name for it was posted, and the counter holds the value one such name posted |
| SubmissionEdit.DigitRun | submissions/views.py:1263 | the run is a prefix of digits followed by a non-digit or the end |
| SubmissionEdit.IdRowMatches | submissions/views.py:1263-1268 | every name "activities_<digits>-<digits>-id" matches, with the prefix and the row digits as groups |
| SubmissionEdit.IdRowShape | submissions/views.py:1263-1268 | every successful match is a name of that shape, optionally followed by one newline, which `$` lets through |
| SubmissionEdit.IdRowNewlineMatches | submissions/views.py:1263-1268 | a name of that shape followed by a newline matches too, with the same groups |
| SubmissionEdit.FallbackIdsMeaning | submissions/views.py:1264-1281 | the fallback adds exactly the ids the posted id fields give |
| SubmissionEdit.FallbackPkOf | submissions/views.py:1269-1281 | the id field of a row gives its nonzero integer value exactly when its formset posted a total below its initial count and no DELETE name for that row |
| SubmissionEdit.FallbackPkShape | submissions/views.py:1265-1267 | only id fields of the matched shape ever give an id |
| SubmissionEdit.CounterSuffixesDiffer | submissions/views.py:1259-1262 | no posted name is both a total and an initial counter |
| SubmissionEdit.CollectFallback | submissions/views.py:1254-1283 | the counter pass and the id pass gather the reference fallback ids |
| SubmissionEdit.DeleteActivities | submissions/views.py:1286-1291 | the activity delete leaves the projects and removes exactly the listed activities of this submission |
| SubmissionEdit.DeleteProjects | submissions/views.py:1319-1320 | the project delete removes the listed projects of this submission and, by cascade, their activities |
| SubmissionEdit.ApplyPostedDeletes | submissions/views.py:1229-1324 | the safety net leaves the reference projects and activities, and sets success exactly as the reference rule does |
| SubmissionEdit.ProjectDeletesStay | submissions/views.py:1319-1320 | a project survives exactly when it belongs to another submission or was not marked |
| SubmissionEdit.ProjectGoneOf | submissions/views.py:1319-1320 | with distinct project ids, an activity's project is removed exactly when it belongs to this submission and was marked |
| SubmissionEdit.ActivityDeletesStay | submissions/views.py:1286-1320 | the deletes never reach another submission's activities, and an activity of this submission survives exactly when neither it nor its project was marked |
| SubmissionEdit.ProjectSubmissionOf | submissions/views.py:1319-1320 | with distinct ids, the project found for an id is the one row with that id |
| SubmissionEdit.UnsavedMarkerSucceeds | submissions/views.py:1296-1299 | a checked activity marker alone sets success, even for an unsaved row with no id |
| SubmissionEdit.CollectedMeaning | submissions/views.py:1431-1449 | an error is collected exactly when its form has it, and none is collected exactly when no form has one |
| SubmissionEdit.CheckSlpTab | submissions/views.py:1426-1452 | on an enforced save of a valid formset the errors are those of the offered rows with enrolment whose bands do not add up; no errors otherwise; the rows are saved exactly when the formset is valid, there is no error and the top lists are valid |
| SubmissionEdit.CheckRmaTab | submissions/views.py:1533-1560 | the same rule over the five RMA counts, saving exactly when the rows are valid, error-free and the interventions are valid |
| SubmissionEdit.SlpTabRule | submissions/views.py:1431-1449 | a form is flagged exactly when its offered row has an enrolment its bands do not add up to, and no form is flagged exactly when every such row balances |
| SubmissionEdit.RmaTabRule | submissions/views.py:1537-1558 | a form is flagged exactly when its row has an enrolment its five counts do not add up to, and no form is flagged exactly when every such row balances |
| SubmissionEdit.SubjectSave | submissions/views.py:1356-1372 | the one-subject save raises an error exactly on an enforced save (now including save_subject) of an offered row whose bands do not add up, and agrees with the tab rule on a tab action |
| SubmissionEdit.SubmissionTabsMeaning | submissions/views.py:594-618 | the tabs keep the default order and are exactly the default tabs whose key is enabled, all of them when nothing is enabled or the schema cannot be read |
| SubmissionEdit.EnabledListSelects | submissions/views.py:612-616 | a non-empty list of tab keys enables exactly the keys it lists |
| SubmissionEdit.LabelCode | submissions/views.py:2116-2120 | a label matches exactly when some strand's label equals it case-insensitively, and the code found is a strand code |
| SubmissionEdit.EntryCode | submissions/views.py:2105-2120 | any code an entry names is a strand code |
| SubmissionEdit.EntryCodes | submissions/views.py:2104-2120 | every collected code is a strand code |
| SubmissionEdit.EntryCodesMeaning | submissions/views.py:2104-2120 | a code is collected exactly when some entry names it |
| SubmissionEdit.StrandLabelsMeaning | submissions/views.py:2098-2128 | a strand's label is shown exactly when some entry names the strand, only strand labels are shown, and none is shown twice |
| SubmissionEdit.ShsStrandsDistinct | submissions/constants.py:271-282 | the strands of the system have distinct codes and distinct labels |
| SubmissionEdit.CleanStrands | submissions/views.py:2098-2128 | the entry pass and the de-duplicating pass give the reference labels |
| SubmissionLifecycle.StatusCodeInjective | submissions/models.py:157-161 | distinct statuses are stored under distinct codes |
| SubmissionLifecycle.Audited | submissions/models.py:313 | a timeline row records an actor exactly when the actor is an authenticated user, and then that user |
| SubmissionLifecycle.EmptyTitles | submissions/models.py:238-244 | there is a missing-activity title for each project without activities and none exactly when every project has one |
| SubmissionLifecycle.ReadinessMeaning | submissions/models.py:232-248 | submitting is ready exactly when there is a project and every project has an activity; otherwise there is exactly one message, the no-project one when there are no projects |
| SubmissionLifecycle.CreatedConsistent | submissions/models.py:283-294 | a newly saved submission satisfies the lifecycle invariant with a single timeline row |
| SubmissionLifecycle.TransitionMeaning | submissions/models.py:296-317 | a transition to the current status changes nothing; any other keeps the invariant, reaches the target, appends exactly one timeline row and keeps the earlier rows, the remarks and the submitted stamp |
| SubmissionLifecycle.SubmitMeaning | submissions/models.py:251-257 | submitting succeeds exactly from draft or returned with every project holding an activity; it then stamps the submission, clears the review stamps, keeps the returned remarks and appends one row to "submitted" |
| SubmissionLifecycle.ReturnMeaning | submissions/models.py:259-267 | returning succeeds exactly for a submitted report with non-empty remarks; it records the stamp and remarks and appends one row from "submitted" to "returned" |
| SubmissionLifecycle.NoteMeaning | submissions/models.py:269-275 | noting succeeds exactly for a submitted report; it records the stamp and remarks, keeps the returned remarks and appends one row from "submitted" to "noted" |
| SubmissionLifecycle.DraftMeaning | submissions/models.py:229-230 | moving to draft keeps the invariant, extends the timeline, and is a no-op from draft |
| SubmissionLifecycle.Submission.constructor | submissions/models.py:283-294 | the first save leaves the created record |
| SubmissionLifecycle.Submission.Transition | submissions/models.py:296-317 | the stored submission becomes the transition's reference record |
| SubmissionLifecycle.Submission.MarkSubmitted | submissions/models.py:251-257 | the messages raised are the reference ones, and the record changes only when there are none |
| SubmissionLifecycle.Submission.MarkReturned | submissions/models.py:259-267 | the message raised is the reference one, and the record changes only when there is none |
| SubmissionLifecycle.Submission.MarkNoted | submissions/models.py:269-275 | the message raised is the reference one, and the record changes only when there is none |
| SubmissionLifecycle.Submission.MarkDraft | submissions/models.py:229-230 | the stored submission becomes the reference draft record |
| SubmissionProgress.Percent | submissions/models.py:408 | the truncated percentage is at most 100 and is 100 exactly when every one of a non-zero number of rows is done |
| SubmissionProgress.PercentBelow | submissions/models.py:408 | fewer done than total never truncates to 100 |
| SubmissionProgress.CountPctFilled | submissions/models.py:406 | no more rows count as filled than there are rows |
| SubmissionProgress.PctSectionDiffers | submissions/models.py:403-421 | with one filled row the section read through the relation is complete at 100, while the attribute read as written reports not started at 0 |
| SubmissionProgress.CountOffered | submissions/models.py:425-426 | no more rows are offered than there are rows |
| SubmissionProgress.CountSlpDone | submissions/models.py:437-447 | no more rows are complete than are offered |
| SubmissionProgress.CountSlp | submissions/models.py:424-447 | the SLP pass counts exactly the offered rows and the complete offered rows |
| SubmissionProgress.FindSupervisionData | submissions/models.py:516-523 | the pass that stops at the first filled row finds one exactly when some row has supervision data |
| SubmissionProgress.GetSectionCompletion | submissions/models.py:385-545 | the sections computed are those of `get_section_completion` as written, the implementation section always the `except` answer |
| SubmissionProgress.CountComplete | submissions/models.py:562 | no more sections are complete than there are sections |
| SubmissionProgress.CountStatus | submissions/models.py:563-564 | no more sections have a status than there are sections |
| SubmissionProgress.GradedWellGraded | submissions/models.py:410-413 | a percentage section is complete exactly at 100, in progress strictly between and not started at 0 |
| SubmissionProgress.ProjectsGraded | submissions/models.py:395-400 | the projects section is well graded and is either complete or incomplete |
| SubmissionProgress.PctGraded | submissions/models.py:403-421 | the implementation section read through its relation is well graded and never incomplete |
| SubmissionProgress.SlpGraded | submissions/models.py:428-455 | the SLP section is well graded and never incomplete |
| SubmissionProgress.OthersGraded | submissions/models.py:457-543 | the reading, RMA and supervision sections are well graded and never incomplete |
| SubmissionProgress.SectionsWellGraded | submissions/models.py:385-545 | as written there are six well-graded sections of which only the first, the projects section, can be incomplete, and the implementation section is never started |
| SubmissionProgress.IntendedSections | submissions/models.py:403-421 | the intended sections differ from those as written only in the implementation section, graded from its rows |
| SubmissionProgress.IntendedSectionsWellGraded | submissions/models.py:385-545 | the intended sections are six well-graded sections of which only the projects section can be incomplete |
| SubmissionProgress.PctAsWrittenGraded | submissions/models.py:417-421 | as written the implementation section is well graded and not started |
| SubmissionProgress.SumBound | submissions/models.py:553 | the summed progress is at most 100 per section |
| SubmissionProgress.CountsPartition | submissions/models.py:562-564 | complete, in-progress, not-started and incomplete sections add up to all sections |
| SubmissionProgress.SixSections | submissions/models.py:547-564 | over six such sections the overall progress is at most 100 and the three counts add up to six, less one while the projects section is incomplete |
| SubmissionProgress.SummaryMeaning | submissions/models.py:557-573 | over the sections as written the overall progress lies in 0..100, there are six sections, and the completed, in-progress and not-started counts add up to six, less one while the projects section is incomplete |
| SubmissionProgress.IntendedSummaryMeaning | submissions/models.py:547-573 | the same figures hold over the intended sections |
| SubmissionRows.CleanSlpRowMeaning | submissions/models.py:738-750 | the row fails exactly when it is offered and over-counted; a cleaned row never counts more learners than it enrols, keeps its labels and narrative, is zeroed when not offered, and is left as it is by a second clean |
| SubmissionRows.CleanRmaRow | submissions/models.py:1124-1134 | the row fails exactly when its five bands exceed the enrolment, and otherwise passes unchanged |
| SubmissionRows.CleanPhiliriRow | submissions/models.py:936-940 | the row fails exactly when all four bands are zero, and otherwise passes unchanged |
| SubmissionRows.CleanAdmRow | submissions/models.py:1235-1257 | a header marking ADM as not offered clears the row; no header, or ADM offered, leaves it as it is |
| SubmissionRows.CleanAdmRowIdempotent | submissions/models.py:1235-1257 | cleaning an ADM row twice is cleaning it once |
| SubmissionRows.CrlaTotal | submissions/models.py:987-993 | the CRLA total is zero exactly when every grade field is, and no field exceeds it |
| SubmissionRows.PhiliriTotal | submissions/models.py:1034-1041 | the PHILIRI total is zero exactly when all fourteen grade fields are, and no field exceeds it |
| SubmissionRows.IsOpenOnMeaning | submissions/models.py:132-133 | an active template is open on its first and last day, never the day before or after, and never when it closes before it opens |
| SubmissionRows.BaseName | submissions/models.py:602 | the base name holds no separator |
| SubmissionRows.LastDot | submissions/models.py:602 | the index found is -1 or a '.', with no '.' after it |
| SubmissionRows.Suffix | submissions/models.py:602 | the suffix is empty or a '.' followed by at least one character and no further '.' |
| SubmissionRows.AttachmentError | submissions/models.py:601-606 | an attachment is accepted exactly when its lower-cased suffix is an allowed type and it is at most 10 MB |
| SubmissionRows.UpperCaseSuffixAccepted | submissions/models.py:601-606 | a suffix in capitals is accepted, so the size alone decides |
| SubmissionRows.BareSuffixRefused | submissions/models.py:601-604 | a name that is only a suffix has no suffix and is refused |
| SubmissionForms.EmptyPermitted | submissions/forms.py:12-37 | a form becomes empty-permitted exactly when it already was or it is to be deleted, by its cleaned flag or an accepted raw DELETE value |
| SubmissionForms.RawDeleteCaseSensitive | submissions/forms.py:25-29 | every accepted raw value deletes through both the formset and the editor's scan, but "ON" deletes only through the editor's lower-casing scan |
| SubmissionForms.CleanProficiency | submissions/forms.py:63-69 | the form's own `clean` reports nothing exactly when its five bands, blanks as 0, fit the enrolment, and otherwise its one form-level message |
| SubmissionForms.AsPeriods | submissions/forms.py:484 | the text keeps its length and every '!' and '?' becomes '.', nothing else changing |
| SubmissionForms.CountNonBlank | submissions/forms.py:484 | no more pieces are counted than there are |
| SubmissionForms.UnpunctuatedOneSentence | submissions/forms.py:484 | a text with no sentence mark counts as at most one sentence |
| SubmissionForms.TwoSentences | submissions/forms.py:484 | two non-blank pieces around a '.' count as two sentences |
| SubmissionForms.CleanSlpRowFormNotOffered | submissions/forms.py:454-461 | a row not offered is valid with every count zeroed and its reasons kept |
| SubmissionForms.CleanSlpRowFormOffered | submissions/forms.py:454-487 | for an offered row the form's own `clean` keeps the counts with blanks as 0 and reports nothing exactly when the bands fit the enrolment and, with reason "f", the other text has at least two sentences; an over-count is one form-level error, a short text one error on the other-reasons field |
| SubmissionForms.OtherReasonNeedsSentences | submissions/forms.py:479-486 | reason "f" with an other text that has no sentence mark is refused on the other-reasons field |
| SubmissionForms.SavedOther | submissions/forms.py:494 | the stored other text has no surrounding white space |
| SubmissionForms.StrippedNonBlank | submissions/forms.py:448-450 | no piece kept is blank |
| SubmissionForms.StrippedNonBlankKeeps | submissions/forms.py:448-450 | reason codes pass the strip-and-drop step unchanged |
| SubmissionForms.ReasonsRoundTrip | submissions/forms.py:448-494 | saving the chosen reasons and opening the row again shows the same reasons in the same order |
| SubmissionForms.JoinOfCodes | submissions/forms.py:493 | joining at least one reason code gives a non-empty string |
| SubmissionForms.OtherRoundTrip | submissions/forms.py:451-494 | the stored other text opens and is saved again unchanged |
| SubmissionForms.CleanReview | submissions/forms.py:286-300 | the remarks come back stripped; the form is valid unless the action is return and the remarks are blank, and then it carries the one remarks error |
| SubmissionForms.CleanPercent | submissions/forms.py:338-350 | a percent is accepted exactly when it is absent or within 0..100, and then unchanged |
| SubmissionForms.CleanRmaForm | submissions/forms.py:744-763 | the form's own `clean` reports nothing exactly when no enrolment was given or the band total fits it |
| SubmissionForms.RmaDraftPasses | submissions/forms.py:754-755 | the form's own `clean` lets any band total over an enrolment of 0 through |
| SubmissionForms.RmaDraftRefusedOnSave | submissions/models.py:1124-1134 | a band total over an enrolment of 0 passes the form's own `clean`, but the row's model `clean`, which the model form runs next, refuses it |
| SubmissionForms.CleanSupervision | submissions/forms.py:833-840 | the form's own `clean` reports nothing exactly when one of the two numbers is missing or the supervised teachers do not exceed the total |
| SubmissionForms.Zeroed | submissions/forms.py:966-971 | the fields listed end up present, every field already present keeps its value, and every field added is 0 |
| SubmissionForms.ZeroedTwice | submissions/forms.py:966-971 | filling one list of fields and then another is filling both at once |
| SubmissionForms.RangeErrorsMeaning | submissions/forms.py:983-988 | there is no range error exactly when every percent field lies in 0..100, and each error names a percent field |
| SubmissionForms.NegativeErrorsMeaning | submissions/forms.py:1004-1009 | there is no sign error exactly when every amount field is non-negative, and each error names an amount field |
| SubmissionForms.AdmErrorsMeaning | submissions/forms.py:954-1033 | with every field filled, the ADM row has no error exactly when its percents lie in 0..100, its amounts are non-negative and neither the actual nor the obligated or unobligated funds exceed their limit |
| SubmissionForms.Dropped | submissions/forms.py:983-1031 | `add_error` removes exactly the named fields from the cleaned data and keeps every other value |
| SubmissionForms.FilledFields | submissions/forms.py:966-971 | once the blanks are filled every ADM number is present |
| SubmissionForms.NegativeNamed | submissions/forms.py:1004-1009 | a sign error names a field exactly when it is an amount field with a negative value |
| SubmissionForms.AmountKept | submissions/forms.py:983-1009 | an amount survives the range and sign checks exactly when it is non-negative |
| SubmissionForms.AdmLimitsMeaning | submissions/forms.py:1011-1031 | each limit error is raised exactly when both amounts are non-negative and the limited one exceeds its limit |
| SubmissionForms.NegativeDownloadOneError | submissions/forms.py:1004-1031 | a negative download gets its sign error only, neither funds comparison running over it |
| SubmissionForms.DroppedTwice | submissions/forms.py:983-1031 | removing the fields of two error lists in turn removes those of both |
| SubmissionForms.FillZeros | submissions/forms.py:966-971 | the loop fills the blanks as the reference filling does |
| SubmissionForms.CheckRanges | submissions/forms.py:983-988 | the loop records the reference range errors in order |
| SubmissionForms.CheckSigns | submissions/forms.py:1004-1009 | the loop records the reference sign errors in order |
| SubmissionForms.CheckLimits | submissions/forms.py:1011-1031 | the three comparisons record the cross-field errors of the data left after the earlier errors, each only when both amounts are still there, an error on the actual removing it |
| SubmissionForms.CleanAdm | submissions/forms.py:954-1033 | the errors are those of the filled data, and the cleaned data are the filled data without every field an error was added for |
| SubmissionForms.CheckAdmRules | submissions/forms.py:983-1031 | the range, sign and limit checks record the errors of the filled data and leave the data without every field they named |
| SubmissionForms.WindowErrors | submissions/forms.py:1315-1325 | there is an error exactly when both dates are given and the close date is earlier, and then one form-level message |
| SubmissionForms.CleanSchedule | submissions/forms.py:1315-1327 | the schedule form keeps its data and is valid exactly when a date is missing or the close date is not earlier |
| SubmissionForms.AcceptedScheduleOpens | submissions/forms.py:1315-1327 | an accepted active schedule with both dates is open on its first and last day |
| SubmissionForms.SmeaModeFallback | submissions/forms.py:1208-1211 | without a cleaned check box, any non-empty posted value turns SMEA mode on |
| SubmissionForms.CleanCreate | submissions/forms.py:1202-1225 | SMEA mode fixes the title, nothing else changes, and the form is valid exactly when the window check passes |
| SubmissionForms.TemplateFormsAgree | submissions/forms.py:1202-1327 | the create and schedule forms refuse the same windows |
| SubmissionForms.NormalOverride | submissions/forms.py:1241-1245 | the stored override is empty or a reading period; it is non-empty exactly when the lower-cased choice is a period, and then it is that choice |
| SubmissionForms.OverrideDecidesPeriod | submissions/forms.py:1241-1245 | a template saved with an override reads that period, and without one the quarter decides |
| SubmissionForms.BaseParts | submissions/forms.py:1251-1261 | the pieces of the generated code start with "smea1" |
| SubmissionForms.BaseCode | submissions/forms.py:1262 | the base code is never empty |
| SubmissionForms.CandidatesDiffer | submissions/forms.py:1267-1271 | no two candidate codes are the same, whatever their case |
| SubmissionForms.UniqueCode | submissions/forms.py:1264-1272 | the code found is the first candidate no template uses in any case, the base itself when free, reached after at most one candidate per existing code |
| SubmissionForms.SmeaSchema | submissions/forms.py:1274-1282 | the schema records the form type, the tabs, the school year and quarter when present, and keeps every other key |
| SubmissionForms.SaveTemplate | submissions/forms.py:1227-1286 | the chosen year and quarter are recorded and the override normalised; outside SMEA mode title, code and schema stay; in SMEA mode the title is fixed, the schema records the configuration, a given code stays and a blank one becomes the first free candidate of the base code |
| SubmissionExports.SheetName | submissions/exports.py:22-25 | the sheet name has 1 to 31 characters and is the start of the title's slug, or "sheet" when the slug is empty |
| SubmissionExports.FilenamePrefix | submissions/exports.py:37-40 | the prefix has at most 64 characters, is the start of the full name, and is all of it when it fits |
| SubmissionExports.CanonicalPairs | submissions/exports.py:62-71 | the canonical pair list is never empty |
| SubmissionExports.PositionMapMeaning | submissions/exports.py:71 | every pair, and only a pair of the list, has a position, and the position is its last place in the list |
| SubmissionExports.PositionMapSize | submissions/exports.py:71 | distinct pairs give one index entry per pair |
| SubmissionExports.KeyOrderTotal | submissions/exports.py:96-99 | the sort key orders rows totally |
| SubmissionExports.OrderedSlpRowsMeaning | submissions/exports.py:94-99 | the export lists a permutation of the rows in nondecreasing canonical position, every row with an unknown pair after every row with a known one |
| SubmissionExports.SlpExportRow | submissions/exports.py:128-145 | an exported row has one cell per header; it shows grade, subject and summary, and the enrolment and five bands only for an offered subject, "Not offered" and blanks otherwise |
| SubmissionExports.PartsFailureSticks | submissions/exports.py:112-121 | once a list item fails, the whole summary of the list falls back |
| SubmissionExports.PartsMeaning | submissions/exports.py:111-122 | every part comes from one dictionary item and carries that item's 1-based place; there are no more parts than items |
| SubmissionExports.InterventionSummaryMeaning | submissions/exports.py:100-126 | blank text summarises to nothing, text that is not a readable list to itself stripped, and a list to its parts joined by "; " |
| SubmissionExports.ItemPieceShape | submissions/exports.py:115-121 | an item with an intervention reads "n. reason: intervention", the code standing in for a missing reason |
| SubmissionExports.SummarizeInterventions | submissions/exports.py:100-126 | the loop gives the reference summary |
| SubmissionExports.PairRowsMeaning | submissions/exports.py:262-266 | there are at most as many rows as pairs, and every row names a non-blank pair by its 1-based place |
| SubmissionExports.DifficultyRowsMeaning | submissions/exports.py:253-280 | the plans' rows are used whenever they give any; the raw JSON is read only when they give none, and only a list can fail |
| SubmissionExports.ExportTiming | submissions/exports.py:206-213 | the export's period is always a reading period |
| SubmissionExports.ExportTimingAgrees | submissions/exports.py:206-213 | for the four quarters the export derives the reading form's period; for any other value it falls back to "eosy" where the reading form falls back to "bosy" |
| SubmissionExports.ReadingPhrase | submissions/exports.py:214-220 | bosy and mosy, in any case, get their own note, anything else the EOSY note |
| SubmissionExports.ReadingNoteNamesQuarter | submissions/exports.py:203-222 | the note of a Q4 export names quarter 4, and the note of a Q1 export or one without a quarter names quarter 1 |
| SubmissionExports.BuilderFor | submissions/exports.py:403-416 | a builder exists exactly for the slp, reading, rma and adm tabs, and any other tab is refused with its own message |
| SubmissionExports.RowTexts | submissions/exports.py:427-428 | a row is written cell by cell |
| SubmissionExports.TableLines | submissions/exports.py:425-428 | a table is written as its title line, its headers, then its rows, and nothing else |
| SubmissionExports.LayoutBlockAt | submissions/exports.py:422-428 | each table's block appears whole at its offset |
| SubmissionExports.CsvTableAt | submissions/exports.py:419-429 | table i's title, headers and rows appear in order at its offset, and an empty line precedes every table but the first |
| SubmissionExports.RenderCsv | submissions/exports.py:419-429 | the loops write the reference lines |
| SubmissionTags.KnownStatus | submissions/templatetags/submission_tags.py:11-16 | a stored value names a status exactly when it is that status's code |
| SubmissionTags.StatusBadgeClass | submissions/templatetags/submission_tags.py:19-22 | the four statuses get "badge badge--<status>", any other value "badge" |
| SubmissionTags.StatusBadge | submissions/templatetags/submission_tags.py:25-29 | the badge shows the status's label, or the raw value when it names none, with the class above |
| SubmissionTags.BadgesOfStatuses | submissions/templatetags/submission_tags.py:11-29 | every status has its own class and label, and an unknown value shows as itself with the plain class |
| SubmissionTags.GetSubjectStatus | submissions/templatetags/submission_tags.py:92-109 | a subject not offered is not applicable, and an offered one is not started exactly when it has no data |
| SubmissionTags.StatusAgreesWithCompletion | submissions/templatetags/submission_tags.py:66-109 | an offered subject is complete exactly when the completion check says so, and incomplete only with data and an incomplete check |
| SubmissionTags.CompleteSubjectMeaning | submissions/templatetags/submission_tags.py:66-89 | a complete offered subject counts exactly its non-zero enrolment and has an LLC, an intervention plan and an overall strategy |
| SubmissionTags.Token | submissions/templatetags/submission_tags.py:46 | the token is a prefix of the text with no white space |
| SubmissionTags.Words | submissions/templatetags/submission_tags.py:46 | every word is non-empty and holds no white space |
| SubmissionTags.WordsOfTwo | submissions/templatetags/submission_tags.py:46 | two words separated by a space split into those two words |
| SubmissionTags.NumberIsWord | submissions/templatetags/submission_tags.py:46 | a number's digits form one word that parses back to the number |
| SubmissionTags.GradeKeyOfLabel | submissions/templatetags/submission_tags.py:46 | a two-word label sorts by the number its second word spells, and a one-word label such as "Kinder" by 0 |
| SubmissionTags.LabelSeq | submissions/templatetags/submission_tags.py:40-42 | the labels are read form by form |
| SubmissionTags.OfferedCount | submissions/templatetags/submission_tags.py:50-51 | no more subjects are offered than there are |
| SubmissionTags.CompletedCount | submissions/templatetags/submission_tags.py:52 | no more subjects are complete than are offered |
| SubmissionTags.CompletionPercent | submissions/templatetags/submission_tags.py:53 | the percentage is the truncated exact ratio, 0 without offered subjects and at most 100 |
| SubmissionTags.GroupsFor | submissions/templatetags/submission_tags.py:46-61 | the blocks come in the order of the labels given |
| SubmissionTags.SortedLabelsMeaning | submissions/templatetags/submission_tags.py:46 | the sorted labels are the labels of the forms, each once, in nondecreasing key order |
| SubmissionTags.GroupedLabels | submissions/templatetags/submission_tags.py:33-63 | each label of the forms has exactly one block, every block is for such a label, and the blocks come in nondecreasing grade order |
| SubmissionTags.GroupOfMeaning | submissions/templatetags/submission_tags.py:47-61 | each block holds exactly the forms of its label in order, and counts its offered and complete subjects with a percentage of at most 100 |
| SubmissionTags.NoFormsOfLabel | submissions/templatetags/submission_tags.py:42 | a label no form carries has no forms |
| SubmissionTags.GroupByLabel | submissions/templatetags/submission_tags.py:38-42 | the first loop records each label once in the order first seen, with exactly those labels as keys, each holding its forms |
| SubmissionTags.Tally | submissions/templatetags/submission_tags.py:50-52 | the tally counts the offered and the complete offered subjects |
| SubmissionTags.KeysOk | submissions/templatetags/submission_tags.py:46 | the keys are computed without raising exactly when every label parses |
| SubmissionTags.BuildGroups | submissions/templatetags/submission_tags.py:46-61 | the second loop gives one block per sorted label |
| SubmissionTags.GroupByKey | submissions/templatetags/submission_tags.py:33-63 | the loops give the reference grouping for the sort key |
| SubmissionTags.GroupSlpByGrade | submissions/templatetags/submission_tags.py:33-63 | the filter gives the reference grouping of the forms |
| ActivityProgress.RoundPos | submissions/templatetags/activity_progress.py:12 | Python's round of a positive-denominator ratio: an integer nearest to n/d, the even one on a tie |
| ActivityProgress.RoundHalfEven | submissions/templatetags/activity_progress.py:12 | round of n/d for a denominator of either sign agrees with the positive-denominator rounding of the same ratio |
| ActivityProgress.NearestUnique | submissions/templatetags/activity_progress.py:12 | two nearest integers to the same ratio that both obey the tie-to-even rule are equal, so the rounding is determined |
| ActivityProgress.PercentComplete | submissions/templatetags/activity_progress.py:5-14 | a failed int() conversion or a zero total shows "0"; otherwise the decimal text of the rounded percentage 100*completed/total |
| ActivityProgress.NearestInPercentRange | submissions/templatetags/activity_progress.py:12 | an integer nearest to a ratio between 0 and 100 lies between 0 and 100 |
| ActivityProgress.PercentCompleteRange | submissions/templatetags/activity_progress.py:10-12 | for 0 <= completed <= total with total > 0 the shown percentage is 0..100, exactly 100 when all are done and 0 when none is |
| ActivityProgress.HalvesToEven | submissions/templatetags/activity_progress.py:12 | halves round to the even neighbour: 1 of 8 shows 12, 3 of 8 shows 38 |
| DashboardFilters.OneOf | dashboards/views.py:940-944 | a listed value is kept, any other value becomes the default; the result is always listed |
| DashboardFilters.CleanSlp | dashboards/views.py:970-987 | outside the SLP view the subject and grade choices pass unchanged; inside it the ticked subjects and grades keep exactly the known ones, a single subject (checked only when none is ticked) survives exactly when known, a grade range exactly when it is a legacy group or a known grade, and anything reset becomes "all" |
| DashboardFilters.ReadingTypeFor | dashboards/views.py:1014-1018 | the CRLA and PHILIRI KPI parts force their reading type; every other part keeps the validated one |
| DashboardFilters.TimingFor | dashboards/views.py:958-1013 | an explicit assessment period that is one of BOSY/MOSY/EOSY is kept; anything else, missing included, becomes the period the validated quarter stands for |
| DashboardFilters.SanitizeValid | dashboards/views.py:938-1021 | after the clean-up every choice is one the page offers: quarter, KPI part, reading type consistent with the part, period, sort direction, level, SLP mode, threshold, intervention, focus, RMA grade, the SLP subject and grade choices, and the sort key (reset at 1905-1908, see SortKeyReset) |
| DashboardFilters.SanitizeKeepsValid | dashboards/views.py:938-1021 | the clean-up changes nothing on a query that is already valid (with a known SLP subject), the sort key checked at 1905-1908 included, so it resets only what is out of range |
| DashboardFilters.SortKeyReset | dashboards/views.py:1905-1908 | a sort key the view does not offer becomes "school_name"; the sort key is kept exactly when it is offered or is "school_name" |
| DashboardFilters.SubjectFilterSurvives | dashboards/views.py:971-979 | because the single subject is checked only while subjects are ticked and before they are filtered, an unknown subject with only unknown ticked subjects passes, and a second clean-up resets it |
| Grouping.KeySeq | dashboards/views.py:589-591 | the key of every element, position by position |
| Grouping.NoneOfKey | dashboards/views.py:588-597 | a key that no element carries gets no elements |
| Grouping.GroupBy | dashboards/views.py:588-597 | the setdefault-and-append loop yields each key once, in order of first appearance, mapped to exactly the elements carrying it, in list order, and no other key |
| Grouping.SplitCount | dashboards/views.py:588-597 | the elements whose key is among keys plus a new key k are those of the old keys plus k's group |
| Grouping.GroupSizesCount | dashboards/views.py:588-597 | the sizes of the groups of distinct keys add up to the number of elements whose key is among them |
| Grouping.GroupsCover | dashboards/views.py:588-597 | every element lands in exactly one group: the group sizes over all keys seen add up to the list's length |
| DashboardViews.ExtractGradeNumber | dashboards/views.py:37-49 | a missing or empty label has no grade number, and any number read off a label is non-negative |
| DashboardViews.GradeNumberCases | dashboards/views.py:40-49 | a label containing "kinder" or starting with k (any case) reads as 0; any other label reads as the number its digits spell, or none without digits |
| DashboardViews.GradeNumberOfLabel | dashboards/views.py:43-46 | every label "Grade n" reads back as n |
| DashboardViews.KinderIsZero | dashboards/views.py:41-42 | every label starting with K or k reads as grade 0 |
| DashboardViews.PageNumber | dashboards/views.py:2078-2081 | the page is at least 1, 1 when the parameter is not an integer, and otherwise the given integer raised to 1 |
| DashboardViews.PageSize | dashboards/views.py:2082-2085 | the page size lies in 1..500, is 50 when the parameter is not an integer, and otherwise is the given integer clamped into 1..500 |
| DashboardViews.DefaultPaging | dashboards/views.py:2079-2083 | without parameters the API serves page 1 of 50 rows |
| DashboardViews.PageSizeOfInt | dashboards/views.py:2079-2083 | an integer page size is clamped into 1..500 and an integer page raised to at least 1 |
| DashboardViews.Paged | dashboards/views.py:2689-2692 | a page holds at most size rows, each the row at the page's start offset plus its position, and is empty past the end |
| DashboardViews.PageOfPosition | dashboards/views.py:2690-2692 | the row at position i is on page i div size + 1, at offset i mod size |
| DashboardViews.Respond | dashboards/views.py:2688-2704 | the response reports the full row count, a page of at least 1 and a size within 1..500, and at most that many rows, namely that page's slice |
| DashboardViews.AjaxRowsTruncated | static/js/dashboard/smme_kpi_dashboard.js:149 | the script's single request for page_size 10000 is clamped to 500, so with more than 500 rows it receives only the first 500, and otherwise all of them |
| DashboardViews.FetchAllPages | static/js/dashboard/smme_kpi_dashboard.js:147-165 | asking page after page of 500 until the reported total has arrived yields every row, in order |
| DashboardViews.TimingFromQuarter | dashboards/views.py:948-957 | Q1 maps to EOSY, Q2 and Q3 to BOSY, Q4 to MOSY and anything else to EOSY, the same mapping the exports use |
| DashboardViews.OneBand | dashboards/views.py:1716-1723 | every percentage falls in exactly one of the bands high (75 and up), medium (50 to below 75) and low (below 50) |
| DashboardViews.ThresholdFilter | dashboards/views.py:1713-1752 | a threshold other than high, medium or low keeps every row |
| DashboardViews.BandsSplitRows | dashboards/views.py:1747-1752 | the high, medium and low filters split the rows: their sizes add up to the number of rows |
| DashboardViews.DetailFilteredMeaning | dashboards/views.py:1726-1744 | after the subject-detail filter every school left has at least one subject, its subject count equals its subjects, every subject is in the band, and no school is added |
| DashboardViews.FilterSubjectDetail | dashboards/views.py:1728-1744 | the nested loop over schools and subjects computes exactly the specified subject-detail filter |
| DashboardViews.KeepInBand | dashboards/views.py:1730-1738 | the inner loop keeps exactly the subjects whose rate is in the band, in order |
| DashboardViews.CompletionRate | dashboards/views.py:488 | the completion rate is the floor of completed times 100 over total forms, and 0 without forms |
| DashboardViews.CompletionRateRange | dashboards/views.py:488 | for 0 <= completed <= total the rate is a percentage, and 100 exactly when all forms are complete |
| DashboardViews.AverageCompletion | dashboards/views.py:470-481 | the average progress is the floor of the sum over the count, and 0 without drafts |
| DashboardViews.AverageInRange | dashboards/views.py:470-481 | the average of progress values in 0..100 lies in 0..100 |
| DashboardViews.SummaryCards | dashboards/views.py:3590-3620 | no metrics give no cards; otherwise five cards in fixed order carry total schools, submitted, DNME %, burn rate and PHILIRI band 10, missing metrics shown as 0, and only the submitted card has the success tone |
| DashboardViews.Slug | dashboards/views.py:3033-3038 | a slug is never empty and consists only of lower-case letters, digits and hyphens |
| DashboardViews.SlugIdempotent | dashboards/views.py:3033-3038 | the slug of a slug is itself |
| DashboardGaps.AddPlaceholders | dashboards/views.py:2335-2348 | the loop appends, after the computed rows, one placeholder for each school in scope whose id had no row when the loop began, in school order |
| DashboardGaps.PlaceholdersMeaning | dashboards/views.py:2337-2348 | every placeholder belongs to a school lacking a row and carries zero figures, its district label and has_data False; every such school gets one |
| DashboardGaps.EverySchoolListed | dashboards/views.py:2335-2348 | afterwards every school in scope has a row, the computed rows stay in front unchanged, and each added row is a no-data row of a school that had none |
| DashboardGaps.MissingOf | dashboards/views.py:628-643 | a missing school records whether its profile is absent; without a profile the head name, contact and strands are empty and both are flagged missing; a head name is flagged missing exactly when blank; no grade-span warning is ever raised |
| DashboardGaps.RowCounts | dashboards/views.py:618-653 | in each district line the submitted and missing counts add up to the district's school count, and the missing list holds exactly the district's schools without a submitted or noted report |
| DashboardGaps.RowOrderTotal | dashboards/views.py:657 | district lines compare by the Python string order of their district names (no district sorting as ""), a total preorder |
| DashboardGaps.TotalSchoolsIsGroupSizes | dashboards/views.py:654 | the running school total over the lines equals the sizes of the districts' groups added up |
| DashboardGaps.TotalMissingIs | dashboards/views.py:681 | when each line's counts add up, the sum of missing counts equals total schools minus total submitted |
| DashboardGaps.ReportMeaning | dashboards/views.py:588-681 | every school in scope is counted once, the missing total is schools minus submitted, there is one line per district, the lines are sorted by district name, and each line's counts add up |
| DashboardGaps.MissingAddsUp | dashboards/views.py:645-681 | the page's total missing equals the sum of the districts' missing counts |
| DashboardGaps.DistrictLine | dashboards/views.py:619-653 | the counting loop and the missing-school loop of one district produce that district's line |
| DashboardGaps.DistrictLines | dashboards/views.py:615-655 | the loop over the districts gives one line per district in grouping order, and the running totals are the sums over those lines |
| DashboardGaps.GroupedLines | dashboards/views.py:588-655 | grouping by district then looping gives the lines of the districts in order of first appearance, with their totals |
| DashboardGaps.SubmissionGaps | dashboards/views.py:587-681 | district_submission_gaps computes exactly the report specified above; without a form and a period no submission counts as made |
| OrganizationForms.Items | organizations/forms.py:61 | the items kept from a comma split are stripped and non-empty, in order |
| OrganizationForms.CleanStrands | organizations/forms.py:47-62 | a list passes through unchanged; an empty or non-string value gives []; a string that is not a JSON list once stripped becomes its stripped non-empty comma-separated items |
| OrganizationForms.TextItemsShape | organizations/forms.py:53-61 | the items read from free text are strings that are stripped, non-empty and free of commas |
| OrganizationForms.JoinedText | organizations/forms.py:45 | the ", "-joined pre-fill of stripped non-empty items is itself stripped and starts with the first item's first character |
| OrganizationForms.JoinedItemsRoundTrip | organizations/forms.py:45-61 | items written out as "a, b, c" by the pre-fill are read back by clean_strands as exactly the same items |
| OrganizationForms.StringsOf | organizations/forms.py:40-43 | the strings kept from a stored list are exactly the string members of it |
| OrganizationForms.InitialFor | organizations/forms.py:34-45 | a bound form or a profile without strands pre-fills nothing; otherwise the known SHS labels become the ticked boxes and the other strings, when there are any, the ", "-joined text |
| OrganizationForms.InitialSplitsStrands | organizations/forms.py:37-45 | the ticked boxes are exactly the stored strings that are SHS labels, and the text is left alone exactly when every stored string is one |
| OrganizationForms.StrandTexts | organizations/forms.py:71-74 | what survives the string and blank tests of clean is stripped and non-empty |
| OrganizationForms.CleanProfile | organizations/forms.py:64-78 | the loop with its seen set stores the combined strands specified by CombinedStrands |
| OrganizationForms.CombinedMeaning | organizations/forms.py:64-78 | the stored strands are stripped, non-empty and distinct, are exactly the stripped non-empty strings of the two fields, and keep the order of first appearance with ticked labels first |
| OrganizationForms.ResubmitKeepsStrands | organizations/forms.py:34-78 | with the textarea pre-filled from the field initial that `__init__` sets, as evidently intended, submitting the form unchanged gives back the strands with the SHS labels first and the others after, each in their old order |
| OrganizationForms.ResubmitSameSet | organizations/forms.py:34-78 | the strands given back by the intended pre-fill and an unchanged resubmission are the same set as those stored |
| OrganizationForms.ResubmitAsWrittenFragments | organizations/forms.py:34-78 | as written, the textarea showing `str` of the stored list, an unchanged resubmission over SPED and ALS stores the fragments `['SPED'` and `'ALS']` |
| OrganizationForms.CombinedTexts | organizations/forms.py:63-78 | distinct stripped non-empty free-form strings are stored as they are |
| OrganizationForms.SchoolFormErrors | organizations/forms.py:176-199 | without create_user there are no errors; with it, a missing username, a missing password, a section admin without sections and a PSDS without a district each raise exactly their own error, and nothing else |
| OrganizationForms.SchoolFormValid | organizations/forms.py:176-199 | the form's own `clean` reports nothing exactly when no account is requested, or the account has a username, a password, and the sections or district its role needs |
| AccountRoles.GetProfile | accounts/roles.py:12-19 | an anonymous user has no profile; a signed-in user has their own, or an empty one created when it is missing |
| AccountRoles.AnonymousHasNoRole | accounts/roles.py:12-58 | an anonymous user has no profile and is neither SGOD admin, school head, PSDS nor section admin of any section |
| AccountRoles.SuperuserIsSgodAdmin | accounts/roles.py:22-26 | every signed-in superuser is an SGOD admin, with or without a profile |
| AccountRoles.SgodAdminHasEveryRole | accounts/roles.py:31-50 | an SGOD admin is also school head, PSDS and section admin of every section |
| AccountRoles.SomeSectionFromOne | accounts/roles.py:41-58 | administering some named section makes one a section admin when no section is named |
| AccountRoles.StoredCodeQualifies | accounts/roles.py:54-58 | every code stored on the profile grants section-admin rights for that code |
| AccountRoles.CodeKeyStable | accounts/roles.py:57-58 | the stripped upper-case key of a key is itself, and lower-casing a code keeps its key |
| AccountRoles.SectionCheckIgnoresCase | accounts/roles.py:41-58 | the section check gives the same answer for a code, its key and its lower-case form |
| AccountRoles.PaddedCodeMatches | accounts/roles.py:57-58 | a stored " smme " matches a lookup of "SMME" |
| AccountAccess.Scope | accounts/scope.py:12-31 | an anonymous user sees no school, and all schools are shown exactly to SGOD and section admins |
| AccountAccess.ScopeSchools | accounts/scope.py:12-31 | the scoped schools are exactly the schools of the table the user's scope shows |
| AccountAccess.ScopeSubmissions | accounts/scope.py:34-55 | the scoped submissions are exactly those whose school the user's scope shows |
| AccountAccess.SubmissionScopeMirrorsSchools | accounts/scope.py:12-55 | a submission is in scope exactly when its school is |
| AccountAccess.ScopeNeedsRole | accounts/scope.py:12-31 | seeing any school takes the school-head, PSDS or section-admin role |
| AccountAccess.OwnSchoolInScope | accounts/scope.py:25-26 | every user sees the school assigned to them |
| AccountAccess.SchoolHeadScope | accounts/scope.py:25-26 | a school head who is no admin sees exactly the assigned school, whatever districts the profile lists |
| AccountAccess.PsdsScope | accounts/scope.py:28-29 | a supervisor with no school and no admin flag sees exactly the schools of the supervised districts |
| AccountAccess.ScopeExamples | accounts/tests.py:77-107 | the scope tests: head and supervisor of the first school see only it and its submission; section and SGOD admins see both schools |
| AccountAccess.SchoolHeadGuard | accounts/decorators.py:14-53 | require_school_head lets through exactly an SGOD admin, or a user with a school acting on it; it refuses for the missing role exactly when the user is no school head, and otherwise only for a foreign school |
| AccountAccess.SectionAdminGuard | accounts/decorators.py:56-90 | for a named section require_section_admin is exactly the section check; without a section any section admin gets through; the role refusal comes exactly for non-admins |
| AccountAccess.SgodPassesEveryGuard | accounts/decorators.py:14-121 | SGOD admins pass all four guards |
| AccountAccess.AnonymousPassesNoGuard | accounts/decorators.py:14-121 | none of the four guards lets an anonymous request through |
| AccountAccess.PageAccess | submissions/views.py:1822-1833 | the review queue admits exactly its section's admins, supervisors and SGOD admins, and the school home every signed-in user |
| AccountAccess.LandingPageOpens | dashboards/views.py:525-536 | every user with a role lands on a page, not the sign-in page, whose own check lets them in |
| AccountAccess.FirstSectionCheckIsDead | accounts/views.py:22-24 | the first-section check never decides: a non-admin reaching it has no section codes and administers no section |
| AccountAccess.NoRoleLandsOnRefusal | submissions/views.py:1824-1833 | a user with no role is sent to the first section's review queue, whose reviewer check refuses them, or with no section to the school home, which lets them in |
| AccountAccess.RedirectExamples | accounts/tests.py:162-186 | the landing-page tests: school head to the school home, section admin and user with no role to the review queue, PSDS to the KPI dashboard, SGOD admin to the division overview |
| AccountProfile.CodesWithMeaning | accounts/models.py:94-96 | after adding a code the list is strictly sorted and holds exactly the old codes and the new one |
| AccountProfile.StrictlySortedUnique | accounts/models.py:96 | two strictly sorted lists with the same members are the same list, so the stored list is determined by its set |
| AccountProfile.SetOrderIrrelevant | accounts/models.py:94-96 | whatever order Python lists the set in, sorting it gives the same stored list |
| AccountProfile.AddingKnownCodeKeeps | accounts/models.py:94-96 | adding a code already on a kept list leaves the list unchanged |
| AccountProfile.AddTwiceIsAddOnce | accounts/models.py:91-97 | adding the same code twice gives the same list as adding it once |
| AccountProfile.KeptListSortsToItself | accounts/models.py:96 | a kept list is already sorted, so sorting it again changes nothing |
| AccountProfile.UserProfile.constructor | accounts/models.py:91 | a loaded profile holds the codes as stored, and the row holds the same |
| AccountProfile.UserProfile.AddSectionCode | accounts/models.py:91-97 | an empty code changes nothing and saves nothing; any other code gives the sorted list of the old codes and the new one, without repeats, and saves it |
| Notifications.NewRowConsistent | notifications/models.py:16-21 | a freshly queued notification (pending, no error, no times, no retries) is consistent |
| Notifications.SendKeepsConsistent | notifications/models.py:29-53 | send keeps every notification consistent: a sent one has its send time as last attempt, a failed one has been tried, the error is at most 500 characters |
| Notifications.RequeueKeepsConsistent | notifications/models.py:55-58 | requeue keeps every notification consistent |
| Notifications.ReportMeansSent | notifications/models.py:29-53 | send reports success exactly when the notification ends up sent |
| Notifications.SentIsFinal | notifications/models.py:30-31 | once delivered, sending again changes nothing and reports success whatever the mail server would do |
| Notifications.RetryCountMonotone | notifications/models.py:44 | send adds one retry exactly on a refused attempt of an unsent mail, and requeue keeps the count |
| Notifications.ErrorIsPrefix | notifications/models.py:43 | a refusal stores the first at most 500 characters of the error text, all of it when it is short enough |
| Notifications.EmailNotification.constructor | notifications/models.py:12-21 | a new notification keeps its address, subject and bodies and starts pending with no error, no times and no retries |
| Notifications.EmailNotification.Send | notifications/models.py:29-53 | send moves the delivery fields as AfterSend says for the attempt and returns whether the mail is now sent |
| Notifications.EmailNotification.Requeue | notifications/models.py:55-58 | requeue makes the notification pending with no error and keeps everything else |
| NotificationServices.QueueEmail | notifications/services.py:7-14 | queue_email creates a new notification with the given address, subject and body, an absent HTML body stored as "", pending with no retries |
| NotificationServices.SendEmailNow | notifications/services.py:17-20 | send_email_now queues a new notification and makes one attempt on it, reporting whether the server took it |
| NotificationServices.Candidates | notifications/services.py:31-38 | the candidates are positions of the queue, in increasing order |
| NotificationServices.Truncate | notifications/services.py:40-41 | with a limit the batch keeps the first limit candidates (all when fewer), without one all of them |
| NotificationServices.PickedMeaning | notifications/services.py:31-41 | the batch takes only eligible notifications (pending, or failed under the retry cap when retrying), oldest first, at most limit of them, all of them without a limit, and never skips an eligible one for a newer one |
| NotificationServices.Processed | notifications/services.py:43-48 | after the batch each picked notification is requeued if failed and sent once; all others are as they were |
| NotificationServices.DeliveredCount | notifications/services.py:42-49 | the count returned is at most the number attempted |
| NotificationServices.States | notifications/services.py:43 | the delivery fields of the queue, one per notification, in order |
| NotificationServices.ProcessOne | notifications/services.py:44-48 | one loop step on an unsent notification leaves it requeued-then-sent with the attempt and reports delivery exactly when the server took it |
| NotificationServices.ProcessAt | notifications/services.py:44-48 | the step changes the i-th notification of the queue as above and no other |
| NotificationServices.BatchStep | notifications/services.py:43-48 | after k+1 loop steps the first k+1 picked notifications are processed and counted, the rest untouched |
| NotificationServices.SendAllPending | notifications/services.py:23-49 | send_all_pending leaves the queue exactly as the specification Processed says for the notifications it picks and returns how many of their attempts were delivered |
| NotificationServices.OnlyPendingUnlessRetrying | notifications/services.py:37-38 | without retrying only pending notifications are attempted |
| NotificationServices.UnpickedUntouched | notifications/services.py:43-48 | a notification already sent or not picked is left exactly as it was |
| NotificationServices.CountIsNewlySent | notifications/services.py:42-49 | the count returned is the number of notifications the batch turned into sent ones, and at most the number attempted |
| NotificationServices.BatchKeepsConsistent | notifications/services.py:43-48 | a batch keeps every notification consistent |
| NotificationServices.RetriesStayCapped | notifications/services.py:32-36 | with retrying under a cap, retry counts at most the cap stay at most the cap |
| NotificationServices.RetriesNeverDecrease | notifications/services.py:43-48 | no retry count goes down in a batch |
| Lists.DedupMeaning | organizations/forms.py:69-76 | the seen-set loop keeps exactly the values of the list, once each, in the order of their first occurrence |
| Lists.DedupIdempotent | organizations/forms.py:69-76 | cleaning an already cleaned list changes nothing |
| Sorting.SortBy | dashboards/views.py:657 | the sorted list is a permutation of the input |
| Sorting.SortSorted | dashboards/views.py:657 | under a total preorder the sorted list is in order |
| Sorting.SortOfSorted | dashboards/views.py:657 | sorting a list already in order leaves it unchanged |
| Sorting.SortStable | submissions/views.py:271-275 | the sort is stable: the elements tying with any given one keep their input order, so entries with equal counts reach the Top 5 in the order they were collected |
| KpiContext.SectionChoice | dashboards/views.py:3379-3393 | only existing sections are offered; a restricted user is offered only the sections they administer (case ignored) or SMME; the selection is an offered code or "smme"; a requested code an offered section has is kept, otherwise the first offered section (or "smme") is selected |
| KpiContext.ScanLabels | dashboards/views.py:3483-3494 | the scan that stops at the first row naming a grade outside the span reports exactly whether some row does |
| KpiContext.SpanMismatch | dashboards/views.py:3474-3496 | a report is a grade-span mismatch exactly when the span (profile, else school grades) is known at both ends and some SLP or RMA row names a grade outside it |
| KpiContext.TallySubmissions | dashboards/views.py:3468-3504 | the loop over the loaded reports leaves the district figures the tally specification gives: only completed reports of districts with an entry count |
| KpiContext.TallyMeaning | dashboards/views.py:3468-3504 | each district's figures are those of its completed reports: the set of their schools, the sums of their DNME, enrolment, band-10 and burn rates, the number of ADM rows and the schools with a grade-span mismatch |
| KpiContext.LoadedFromScope | dashboards/views.py:3452-3466 | with no school or no period nothing is loaded; otherwise a report is loaded exactly when it belongs to a school in scope, its section code matches ignoring case and it is of the chosen period; every loaded report's school is in scope |
| KpiContext.BuildRows | dashboards/views.py:3506-3550 | the loop over the districts yields one line per district, in order, with its school count, submitted count, missing count and figures |
| KpiContext.DistrictRows | dashboards/views.py:3405-3550 | grouping the schools by district, tallying the reports and building the lines gives the district lines of the specification |
| KpiContext.RowMeaning | dashboards/views.py:3506-3510 | a district line counts the district's schools, submitted schools are those of its completed reports and never more than its schools, so the missing count is never negative |
| KpiContext.RowOrderTotal | dashboards/views.py:3552 | the lines are ordered by district name ("" without a district), a total preorder |
| KpiContext.SummaryOfSorted | dashboards/views.py:3561-3569 | the totals summed over the sorted lines equal those over the unsorted lines |
| KpiContext.SummaryMeaning | dashboards/views.py:3561-3578 | there is no summary exactly when no school is in scope; otherwise the school total is the number of schools in scope and the submitted total does not exceed it |
| KpiContext.BuildContext | dashboards/views.py:3368-3587 | the view's steps give the specified context: sections offered and selected, district lines sorted by name, and the summary |
| KpiContext.ContextMeaning | dashboards/views.py:3395-3587 | the lines are sorted by district name, one per district in scope; there is a summary exactly when some school is in scope, counting them all and no more submitted schools than that; only schools of the chosen district are in scope |

## Left out

- Request and response plumbing: rendering, redirects, messages, URL routing, settings, admin, migrations and middleware. Query sets are given sequences. `get_object_or_404` is not modelled, and a Section is looked up by its exact code.
- The database and its saves: `update_fields`, the creation of a profile row by `get_profile`, and transactions. Database ids are taken to be positive integers.
- Network, timers and history in the scripts: `fetch`, the real cancellation by `AbortController`, `setTimeout`, `requestAnimationFrame` and `history.replaceState`. Only their effect on the modelled state is kept.
- Page cosmetics: read-only mode, toasts, accordions, animation, charts, the legend, quick-search highlighting and console diagnostics. The DOM-only functions `sortPerformanceSnapshot` and `toggleADMFields` are not modelled.
- Library internals: `json.loads`/`JSON.parse` and `slugify` are function parameters (`parse`, `slugify`). A stored JSON text is modelled as a value or as garbage, so parse after stringify is the identity by construction. JSON nulls inside `section_admin_codes` are not modelled.
- Text handling is ASCII only: upper and lower case and `strip` do not cover Unicode letters or spaces.
- Floating point: division is modelled on exact ratios, with Python's half-even and JavaScript's half-up rounding written out where a count is rounded. The `round(x, 2)` percentage rates of the KPI dashboard are not modelled. These are the completion rate, the DNME share of enrolment and the average ADM burn rate, per district and in the summary.
- KpiContext.BuildContext: the per-school profile entries of each district line are not modelled. Their head name, contact and missing flags are those of DashboardGaps.MissingOf, and their grade-span warning is membership in the line's `mismatches`. The list of districts offered is not modelled either.
- KpiContext.BuildContext: the district filter is taken as an already parsed integer, so a non-numeric `district_id` (which raises) is not modelled. The allowed section codes are matched as literal codes, ignoring case; a code containing regular-expression characters would match differently in the source's `iregex`.
- KpiContext.ContextMeaning: the bound on submitted schools assumes that a report's school is the scoped school with the same id (`SameSchools`), as the database guarantees.
- Mail transport and the clock are parameters: each delivery attempt is an `Attempt` giving the outcome and the time. The notification hook inside `_transition` (submissions/models.py:318 onwards) and `render_to_string` are not modelled. The queue order is taken as `created_at` order. `html_body or None` is kept as the empty string.
- NotificationServices.SendAllPending: the limit is a natural number, so a negative slice limit (which Django rejects) is not modelled.
- OrganizationForms.InitialFor: the free-form text is the field initial that `__init__` sets, as evidently intended. As written the instance's stored list takes precedence and the textarea shows its `str` (see Findings). `ResubmitAsWrittenFragments` shows this for one input only; `str` of a list in general is not modelled.
- `render_export_to_xlsx` (openpyxl workbooks) is not modelled; the CSV layout is.
- The reading-period derivation is modelled without the view's try/except around it.
- Persisting the SLP analysis (`update_or_create`) and the non-mastery reasons (submissions/views.py:1378-1411 and 1457-1480) is not modelled. Neither is persisting the RMA JSON (1561-1575). The values they store are modelled.
- dashboards/kpi_calculators.py, dashboards/simple_kpi_calculator.py, dashboards/performance.py and dashboards/middleware.py are not part of this model: they are ORM aggregates with float averages, cache keys and timing headers.
- Dashboard filters: `kpi_part` is saved in the session (dashboards/views.py:989-994), and `graph_school_year` and `min_enrollment` only feed chart and ORM queries. None of these is modelled. When no `sort_by` is given, the default chosen by KPI part (734-745) is not derived: the query's sort key stands for the one already chosen. The check of that key against the view's sort options (1905-1908) is modelled.
- Scripts other than the backfill command, seed and repro scripts, `accounts/services.py` wrappers, organization CRUD views and context processors: I/O or thin wrappers.
- Model forms run more than their own `clean`. `is_valid` also runs `_post_clean`, which checks the required model fields, calls the model's `full_clean` and checks uniqueness. None of that is modelled except the one bridge `SubmissionForms.RmaDraftRefusedOnSave`.
- SubmissionForms.CleanProficiency: states what the form's own `clean` reports, not whether the SLP proficiency model form as a whole is valid.
- SubmissionForms.CleanSlpRowFormOffered: states what the form's own `clean` reports. The row's model `clean` (submissions/models.py:738-750, `SubmissionRows.CleanSlpRow`) runs afterwards and is not composed with it.
- SubmissionForms.CleanRmaForm: states what the form's own `clean` reports. The row's model `clean` (submissions/models.py:1124-1134) runs afterwards; `RmaDraftRefusedOnSave` shows one case it refuses.
- SubmissionForms.RmaDraftPasses: only the form's own `clean` lets the draft through; the model `clean` refuses it (see `RmaDraftRefusedOnSave`).
- SubmissionForms.CleanSupervision: states what the form's own `clean` reports, not the model form's required fields or model validation.
- OrganizationForms.SchoolFormValid: states what the form's own `clean` reports, not the model form's required fields, `full_clean` or the uniqueness of the school.
- Text.IsSpace: one whitespace class serves Python's `strip` and JavaScript's `\s`. Python also strips `\x1c`-`\x1f`, which JavaScript does not, and neither language's non-ASCII spaces are covered.
- SubmissionExports.GradeText: a list or object grade is exported as an empty grade, where Python's `str` gives its repr (submissions/exports.py:274).
- JSON numbers with a fraction are modelled with one decimal place (`JDec`, tenths), the form `round(x, 1)` produces. Other floats are not modelled.
- DashboardClient.NumberOfText: `Number` of text with an exponent, hexadecimal or binary digits, `Infinity` or digits beyond ASCII is NaN in the model, where JavaScript reads a number.
- Text.ParseIntStrict: refuses underscores between digits (`"1_0"`), which Python's `int()` accepts.
- NotificationServices.SendAllPending: the default limit of 50 is not modelled; the limit is always given. `send(fail_silently=...)` is not modelled: each attempt's outcome is given, so a mail error that `fail_silently=False` would raise is taken as a failed attempt.
- Reconcile: the row lists are modelled with distinct keys where a lemma needs them. The `MultipleObjectsReturned` that `get` and `get_or_create` raise on duplicate keys is not modelled.
- DashboardClient.SortClicked: the sort_by and sort_dir inputs are taken to be entries of the filter form, so the form's entries before the click are given and the click's values are written into them. The template rendering them is not part of this model.

## Findings

| source | as written | input that shows it | evidently intended | confidence | as-written member | corrected member |
|---|---|---|---|---|---|---|
| static/js/submission-form.js:150 | `renumberProjects` logs `bin.innerHTML`, but no `bin` is declared there. So it throws after setting `TOTAL_FORMS` and the first section's data index, and no field is renamed | one unsaved project of two removed, so the remaining one keeps names `projects-1-*` | every remaining project section and its fields renumbered from 0 | not executed | ProjectForms.RenumberAsWrittenLeavesStaleNames | ProjectForms.IntendedUnsavedDelete |
| static/js/dashboard/smme_kpi_dashboard.js:147-165 | an aborted request's `fetch` rejects, and its `catch` shows the server-rendered region | two requests issued; the first settles with a network error, then the second with a 200 reply `{}` | the failure of a superseded request is ignored, so only the client region shows | not executed | DashboardClient.AbortedFailureShowsBoth | DashboardClient.DashboardPage.Settle |
| submissions/management/commands/backfill_reading_difficulty_plans.py:77-89 | `get_or_create` runs before the `--dry-run` check, so a dry run still creates plans | no plan stored for (bosy, g1), and data `[("a", "")]` | a dry run writes nothing | not executed | DifficultyPlans.DryRunCreatesPlan | DifficultyPlans.BackfillStore |
| submissions/models.py:403-421 | the PCT section reads `self.form1_pct_header`, which is not the relation's name (`form1_pct`); the lookup raises and the `except` branch always answers not started | one filled PCT row with access 80 | the PCT section graded from its rows like the other sections | not executed | SubmissionProgress.PctSectionDiffers | SubmissionProgress.IntendedSectionsWellGraded |
| dashboards/views.py:2083 | the API clamps `page_size` to 500, while the dashboard script asks for `page_size=10000` and reads only the first page | more than 500 result rows | the script receives every row | not executed | DashboardViews.AjaxRowsTruncated | DashboardViews.FetchAllPages |
| organizations/forms.py:34-46 | `__init__` sets the `initial` of the `strands` field, but a model form's initial data from the instance take precedence. So the textarea shows `str` of the stored list, and an unchanged resubmission stores its comma-separated fragments | stored strands `["SPED", "ALS"]`, form opened and submitted unchanged | the textarea shows the non-SHS strands joined with ", ", and the strands come back unchanged | not executed | OrganizationForms.ResubmitAsWrittenFragments | OrganizationForms.ResubmitKeepsStrands |
