# Procurement back-office: timeline, cancellation gate and admin tables

This project models four pieces of a procurement and accounting back office in Dafny and
proves properties about them:

- **The purchase-request timeline** (`timeline.dfy`, module `Timeline`). A purchase request
  (DA, *demande d'achat*) has a creation date, up to eight more timestamps, the profiles of
  the people involved and a status. The timeline component builds one event per stage that
  has happened, in a fixed order, then sorts the events by date with a stable sort. Events
  carry an actor name, an optional comment and a completed/current status. The model proves:
  - which stages appear, in terms of the timestamps and the status, each as an
    if-and-only-if;
  - the timeline is never empty and has at most seven events;
  - ids are unique and at most one event is current;
  - the result is the emitted events, sorted by date and stable;
  - any stable sort gives the same list.
- **The cancellation dialog** (`cancel_dialog.dfy`, module `CancelReason`). A reason must
  have at least ten characters once trimmed; only then is the trimmed reason passed on.
  Its warning counts the untrimmed text.
- **The chart-of-accounts page** (`chart_of_accounts.dfy`, module `ChartOfAccounts`).
  Accounts follow the SYSCOHADA chart, whose classes are 1 to 7. The model covers:
  - the code field, which keeps the digits and detects the class from the first one;
  - validation and the duplicate-code check on create;
  - update, insert and activity toggle;
  - search and class filter, grouping by class, and per-class counts.
- **The payment-modes page** (`payment_categories.dfy`, module `PaymentTables`). It covers
  categories and the methods under them:
  - saves, which number new rows after the existing ones (per category for methods);
  - edits, which touch only code and label;
  - activity toggles.

`text.dfy` (module `Text`) holds the string primitives the components rely on:
- ECMAScript `trim` with the full WhiteSpace and LineTerminator set;
- ASCII `toLowerCase`, `includes`, and the `\d` class.

`optional.dfy` holds the `Option` type. Database tables are in-memory sequences; each page
is a class whose fields are the component's state.

## Model

| member | source | states |
|---|---|---|
| Timeline.FormatActorName | src/components/ui/DATimeline.tsx:60-64 | no profile gives "Système"; otherwise the trimmed full name, or "Utilisateur" when that is blank; never empty, never padded |
| Timeline.Described | src/components/ui/DATimeline.tsx:139 | a stage comment falls back to undefined: a non-empty comment is kept as it is, and anything else gives no description |
| Timeline.StageEvent | src/components/ui/DATimeline.tsx:69-213 | the event a stage produces, if any, carries that stage's id; `StageDated` and `StageFacts` give its date, actor, status and description |
| Timeline.ExpectedDate | src/components/ui/DATimeline.tsx:69-213 | each stage's timestamp: its own slot, with `validated_finance_at` shared by approval and refusal and `comptabilise_at` by payment and accounting rejection |
| Timeline.ExpectedActor | src/components/ui/DATimeline.tsx:69-213 | each stage's actor profile: the creator for creation and submission, otherwise the profile joined on the stage's slot, shared as the timestamps are |
| Timeline.StageDated | src/components/ui/DATimeline.tsx:69-213 | a stage's event is dated at the stage's timestamp and names the stage's actor |
| Timeline.DatesAndActors | src/components/ui/DATimeline.tsx:67-219 | every event in the timeline carries its own stage's timestamp as date and its own stage's actor name |
| Timeline.CreationAlwaysPresent | src/components/ui/DATimeline.tsx:69-78 | the creation event, completed, at the creation date and attributed to the creator, is always in the timeline |
| Timeline.ProcessStages | src/components/ui/DATimeline.tsx:80-130 | submission, analysis, pricing and submission-for-validation appear iff their timestamp is set; these and creation are completed; the submission is dated at `submitted_at` and attributed to the creator |
| Timeline.RevisionStage | src/components/ui/DATimeline.tsx:132-144 | the revision request appears iff `revision_requested_at` is set and the status is en_revision_achats, dated at that timestamp and current |
| Timeline.StatusStagesAtMostTwo | src/components/ui/DATimeline.tsx:132-213 | of the six status-gated stages at most two produce an event |
| Timeline.FinanceSlot | src/components/ui/DATimeline.tsx:146-172 | `validated_finance_at` shows as an approval iff the status is validee_finance, payee or rejetee_comptabilite, and as a refusal iff the status is refusee_finance; never both |
| Timeline.RefusalScenario | src/components/ui/DATimeline.tsx:160-172 | a refused request shows the current refusal with the decision comment and no approval |
| Timeline.AccountingSlot | src/components/ui/DATimeline.tsx:188-213 | `comptabilise_at` shows as a payment iff the status is payee, and as an accounting rejection iff the status is rejetee_comptabilite; never both |
| Timeline.RejectedStage | src/components/ui/DATimeline.tsx:174-186 | the purchasing rejection appears iff `rejected_at` is set and the status is rejetee, dated at that timestamp and current |
| Timeline.CurrentEvent | src/components/ui/DATimeline.tsx:132-213 | no event is pending; an event is current iff it is the revision, the finance refusal or one of the two rejections; it is current only under the status naming that outcome; at most one event is current |
| Timeline.Descriptions | src/components/ui/DATimeline.tsx:132-213 | each event's comment comes from its own stage's field; only the five decision events can have one |
| Timeline.ActorsNamed | src/components/ui/DATimeline.tsx:67-213 | every event names a non-empty actor |
| Timeline.Collect | src/components/ui/DATimeline.tsx:67-213 | the pushes, stage by stage in order, each adding the event its guard lets through; `CollectMembers` states that exactly the produced events of the listed stages are pushed |
| Timeline.Emitted | src/components/ui/DATimeline.tsx:67-213 | the `events` array before the sort: every stage checked once in source order; `TimelineMembers` and `TimelineLength` state what it holds |
| Timeline.Timeline | src/components/ui/DATimeline.tsx:215-219 | the events after the date sort; `TimelineOrder` states that it is the pushed events, sorted and stable |
| Timeline.TimelineMembers | src/components/ui/DATimeline.tsx:67-219 | an event is in the timeline iff its stage produces it; ids are unique |
| Timeline.TimelineLength | src/components/ui/DATimeline.tsx:67-219 | the timeline has between one and seven events |
| Timeline.DATimeline | src/components/ui/DATimeline.tsx:215-223 | the component always returns the sorted, non-empty event list; the `null` branch is unreachable |
| Timeline.OnlyCreation | src/components/ui/DATimeline.tsx:66-223 | a request with no timestamps beyond creation shows the creation event alone |
| Timeline.SortByDate | src/components/ui/DATimeline.tsx:216-219 | the sort keeps the length |
| Timeline.SortSorted | src/components/ui/DATimeline.tsx:216-219 | the sorted list is in ascending date order |
| Timeline.SortPermutes | src/components/ui/DATimeline.tsx:216-219 | the sorted list is a permutation of its input |
| Timeline.SortStable | src/components/ui/DATimeline.tsx:216-219 | events of equal date keep their input order |
| Timeline.SortUnique | src/components/ui/DATimeline.tsx:216-219 | any list that is sorted and keeps every date's events in input order equals the model's sort, so any stable sort gives the same timeline |
| Timeline.TimelineOrder | src/components/ui/DATimeline.tsx:215-219 | the timeline is the emitted events, permuted, sorted by date, with equal dates in stage order |
| Text.Trim | src/components/ui/DATimeline.tsx:62 | `trim` never lengthens; a non-empty result starts and ends with non-space; the result is empty iff the input is all white space |
| Text.TrimIsSlice | src/components/ui/DATimeline.tsx:62 | what `trim` returns is a contiguous piece of its input, and what it drops before and after that piece is all white space |
| Text.TrimTrimmed | src/components/ui/CancelDialog.tsx:45-46 | trimming text without white space at its ends returns it unchanged |
| Text.TrimIdempotent | src/components/ui/CancelDialog.tsx:45-46 | trimming twice equals trimming once |
| Text.LowerChar | src/pages/admin/ComptesComptables.tsx:201-202 | an upper-case ASCII letter becomes its lower-case letter; every other character is kept |
| Text.ToLower | src/pages/admin/ComptesComptables.tsx:201-202 | `toLowerCase` keeps the length and lowers each character on its own |
| Text.Contains | src/pages/admin/ComptesComptables.tsx:201-202 | `includes`: the text occurs as a contiguous piece; `ContainsEmpty` and `TrimIsSlice` are stated with it |
| Text.ContainsEmpty | src/pages/admin/ComptesComptables.tsx:200-202 | every text includes the empty string |
| Text.DigitValue | src/pages/admin/ComptesComptables.tsx:100 | a digit's value lies in 0..9 |
| Text.IsNumeric | src/pages/admin/ComptesComptables.tsx:91 | `/^\d+$/`: at least one character, all ASCII digits |
| Text.KeepDigits | src/pages/admin/ComptesComptables.tsx:379 | `replace(/\D/g, '')` never lengthens and leaves only digits |
| Text.KeepDigitsOne | src/pages/admin/ComptesComptables.tsx:379 | one digit is kept, any other character is dropped; with `KeepDigitsAppend` this fixes the result on every text |
| Text.KeepDigitsOfDigits | src/pages/admin/ComptesComptables.tsx:379 | a text of digits is left unchanged |
| Text.KeepDigitsAppend | src/pages/admin/ComptesComptables.tsx:379 | filtering distributes over concatenation |
| Text.KeepDigitsIdempotent | src/pages/admin/ComptesComptables.tsx:379 | filtering twice equals filtering once |
| CancelReason.EntityLabel | src/components/ui/CancelDialog.tsx:27-31 | every entity type has a non-empty label |
| CancelReason.EntityLabelsDistinct | src/components/ui/CancelDialog.tsx:27-31 | the three entity types have three different labels |
| CancelReason.Title | src/components/ui/CancelDialog.tsx:64 | the title is never empty; a non-empty title is shown as given; an absent or empty one falls back to a text that names the entity |
| CancelReason.DefaultTitle | src/components/ui/CancelDialog.tsx:39-64 | with no title and no entity type the title is "Annuler cette demande d'achat"; an empty title and an explicit `da` give the same |
| CancelReason.FallbackTitlesDistinct | src/components/ui/CancelDialog.tsx:56-64 | two fallback titles are equal only for the same entity type |
| CancelReason.Description | src/components/ui/CancelDialog.tsx:67 | the description is never empty; a non-empty description is shown as given; an absent or empty one falls back to the audit notice, which names the entity |
| CancelReason.DefaultDescription | src/components/ui/CancelDialog.tsx:39-67 | with no description and no entity type the notice names "cette demande d'achat"; an empty description and an explicit `da` give the same |
| CancelReason.ReasonAccepted | src/components/ui/CancelDialog.tsx:45 | the gate on the trimmed reason; an accepted reason has at least ten characters as typed too |
| CancelReason.ConfirmDisabled | src/components/ui/CancelDialog.tsx:99 | the button is disabled while loading and for any text shorter than ten characters |
| CancelReason.ShowLengthWarning | src/components/ui/CancelDialog.tsx:84 | the hint counts the untrimmed text and never shows beside an accepted reason |
| CancelReason.EnabledIffAccepted | src/components/ui/CancelDialog.tsx:99 | the confirm button is enabled iff nothing is loading and the trimmed reason has at least ten characters |
| CancelReason.WarningImpliesDisabled | src/components/ui/CancelDialog.tsx:84-99 | whenever the length warning shows, the button is disabled |
| CancelReason.Boundary | src/components/ui/CancelDialog.tsx:45 | nine trimmed characters are refused, ten accepted |
| CancelReason.PaddedReasonDisabledWithoutWarning | src/components/ui/CancelDialog.tsx:84-99 | a short reason padded to ten characters is refused while no warning shows |
| CancelReason.CancelDialog.constructor | src/components/ui/CancelDialog.tsx:33-42 | a mounted dialog starts with an empty reason and keeps its props |
| CancelReason.CancelDialog.Edit | src/components/ui/CancelDialog.tsx:80 | typing replaces the reason |
| CancelReason.CancelDialog.HandleConfirm | src/components/ui/CancelDialog.tsx:44-49 | an accepted reason is passed on trimmed and cleared; otherwise nothing happens; what is passed on has at least ten characters and no white space at its ends |
| CancelReason.CancelDialog.HandleClose | src/components/ui/CancelDialog.tsx:51-54 | closing clears the reason and asks the parent to close |
| ChartOfAccounts.DetectClasse | src/pages/admin/ComptesComptables.tsx:380-386 | the class picked is the previous class or the code's first digit, and it is a chart class iff the digit or the previous class is one |
| ChartOfAccounts.DetectClasseOtherwiseStays | src/pages/admin/ComptesComptables.tsx:380-386 | an empty code, or one starting with 0, 8 or 9, leaves the class as it was |
| ChartOfAccounts.DetectClasseKeepsChartClass | src/pages/admin/ComptesComptables.tsx:380-386 | typing a code never takes a chart class outside the chart |
| ChartOfAccounts.DetectClasseFollowsCode | src/pages/admin/ComptesComptables.tsx:379-386 | a code starting with 1..7 sets the class to that digit whatever came before |
| ChartOfAccounts.CompleteIsTrimGuard | src/pages/admin/ComptesComptables.tsx:82 | the completeness check is the trim guard on code and label |
| ChartOfAccounts.CodeClasse | src/pages/admin/ComptesComptables.tsx:100 | the class read from a numeric code lies in 0..9 |
| ChartOfAccounts.Accepted | src/pages/admin/ComptesComptables.tsx:82-97 | the two save guards together: code and label filled in, and a numeric code; `CompleteIsTrimGuard` ties the first to `trim` |
| ChartOfAccounts.CodeTaken | src/pages/admin/ComptesComptables.tsx:121 | the `find` on the code succeeds |
| ChartOfAccounts.NewCompte | src/pages/admin/ComptesComptables.tsx:133-137 | the inserted row carries the fresh id, the form's code, label and class, and is active |
| ChartOfAccounts.InsertTakesCode | src/pages/admin/ComptesComptables.tsx:121-137 | after an insert its code is taken, so saving the same new form again is refused as a duplicate |
| ChartOfAccounts.Sent | src/pages/admin/ComptesComptables.tsx:99-103 | the form `setForm` queues: code and label kept, class set to the code's first digit |
| ChartOfAccounts.StaleClasseIsWritten | src/pages/admin/ComptesComptables.tsx:99-136 | as written, an accepted new form with code 401000 and class 6 is inserted with class 6, breaking the class-follows-code property that inserting `Sent` keeps |
| ChartOfAccounts.SaveKeepsClassesFollowingCodes | src/pages/admin/ComptesComptables.tsx:99-137 | with the detected class saved, inserts and updates keep every account's class equal to its code's first digit |
| ChartOfAccounts.UpdateCompte | src/pages/admin/ComptesComptables.tsx:107-115 | the edited row takes the form's code, label and class; every other row is unchanged |
| ChartOfAccounts.SetActive | src/pages/admin/ComptesComptables.tsx:159-164 | the row with the id takes the new flag; every other row is unchanged |
| ChartOfAccounts.UpdatesKeepIds | src/pages/admin/ComptesComptables.tsx:107-164 | updates and toggles keep ids unique |
| ChartOfAccounts.AppendKeepsIds | src/pages/admin/ComptesComptables.tsx:131-137 | inserting a row with a fresh id keeps ids unique |
| ChartOfAccounts.ToggleTwice | src/pages/admin/ComptesComptables.tsx:159-164 | toggling twice from the shown value gives the table back |
| ChartOfAccounts.InsertKeepsCodesDistinct | src/pages/admin/ComptesComptables.tsx:120-137 | a create that passed the duplicate check keeps codes unique |
| ChartOfAccounts.EditCanDuplicateCode | src/pages/admin/ComptesComptables.tsx:107-129 | the edit path has no duplicate check: an edit can give two rows the same code |
| ChartOfAccounts.Filtered | src/pages/admin/ComptesComptables.tsx:199-207 | the filter never lengthens the table |
| ChartOfAccounts.FilteredSpec | src/pages/admin/ComptesComptables.tsx:199-207 | an account is kept iff it matches the search (code or label, ignoring case) and the class filter; kept accounts stay in table order |
| ChartOfAccounts.MatchesSearch | src/pages/admin/ComptesComptables.tsx:200-202 | the search matches on an empty term, or when code or label includes it, ignoring ASCII case; `FilteredSpec` states the filter through it |
| ChartOfAccounts.MatchesClasse | src/pages/admin/ComptesComptables.tsx:204 | the class filter matches every account on 'all', otherwise the accounts of that class |
| ChartOfAccounts.SearchIgnoresCase | src/pages/admin/ComptesComptables.tsx:200-202 | two search terms that lower to the same text match exactly the same accounts |
| ChartOfAccounts.UpperCaseSearchFindsLabel | src/pages/admin/ComptesComptables.tsx:200-202 | the term "FOUR" finds the account labelled "Fournisseurs" |
| ChartOfAccounts.EmptySearchMatchesAnyway | src/pages/admin/ComptesComptables.tsx:200-202 | the empty-search check is redundant with `includes` |
| ChartOfAccounts.FilteredEverything | src/pages/admin/ComptesComptables.tsx:199-207 | with no search and all classes the whole table shows |
| ChartOfAccounts.CardFilter | src/pages/admin/ComptesComptables.tsx:249 | a click on a card clears the filter if it was that card's class, otherwise selects that class |
| ChartOfAccounts.CardClickTwice | src/pages/admin/ComptesComptables.tsx:249 | two clicks on one card end on no filter, or on that class if it was selected |
| ChartOfAccounts.WithClasse | src/pages/admin/ComptesComptables.tsx:210-214 | a class's group never exceeds the list |
| ChartOfAccounts.WithClasseMembers | src/pages/admin/ComptesComptables.tsx:210-214 | a class's group holds exactly the accounts of that class |
| ChartOfAccounts.WithClasseAbsent | src/pages/admin/ComptesComptables.tsx:211 | a class no account has gets an empty group |
| ChartOfAccounts.GroupByClasse | src/pages/admin/ComptesComptables.tsx:210-214 | the reduce creates a group exactly for each class present, holding that class's accounts in order |
| ChartOfAccounts.GroupSizesSum | src/pages/admin/ComptesComptables.tsx:210-220 | over distinct classes covering every account, group sizes add up to the number of accounts |
| ChartOfAccounts.ActiveWithClasse | src/pages/admin/ComptesComptables.tsx:219 | the active count of a class never exceeds its count |
| ChartOfAccounts.ActiveOnly | src/pages/admin/ComptesComptables.tsx:219 | the active accounts in order, never more than the table |
| ChartOfAccounts.ActiveCount | src/pages/admin/ComptesComptables.tsx:219 | a class's active count is the number of accounts that are both active and of that class |
| ChartOfAccounts.ActiveCountExtremes | src/pages/admin/ComptesComptables.tsx:219 | with every account active the active count is the class's count; with none active it is 0 |
| ChartOfAccounts.ClasseStats | src/pages/admin/ComptesComptables.tsx:216-220 | one card per chart class in class order; its count is the number of accounts of the class, its active count the number of active accounts of the class, never more than the count |
| ChartOfAccounts.ClasseKeysAreTheChart | src/pages/admin/ComptesComptables.tsx:32-40 | the cards' classes are exactly the SYSCOHADA classes |
| ChartOfAccounts.StatsCountEveryAccount | src/pages/admin/ComptesComptables.tsx:216-220 | when every account is in a chart class, the cards count every account once |
| ChartOfAccounts.AccountsPage.constructor | src/pages/admin/ComptesComptables.tsx:46-51 | the page starts with the loaded table, the default form (class 6), no search and all classes |
| ChartOfAccounts.AccountsPage.OpenNew | src/pages/admin/ComptesComptables.tsx:192-196 | a blank form with class 6 and the dialog open |
| ChartOfAccounts.AccountsPage.OpenEdit | src/pages/admin/ComptesComptables.tsx:182-190 | the form filled from the account and the dialog open |
| ChartOfAccounts.AccountsPage.OnCodeChange | src/pages/admin/ComptesComptables.tsx:378-387 | the code keeps only the digits and the class is auto-detected |
| ChartOfAccounts.AccountsPage.OnClasseSelect | src/pages/admin/ComptesComptables.tsx:398 | the select sets the form's class |
| ChartOfAccounts.AccountsPage.OnLibelleChange | src/pages/admin/ComptesComptables.tsx:419 | the label field sets the form's label |
| ChartOfAccounts.AccountsPage.HandleSave | src/pages/admin/ComptesComptables.tsx:81-157 | a blank field or a non-numeric code writes nothing; otherwise an edit updates the row and a create refuses a taken code or appends the new row, both with the form as it was when the save started, class included; a refused create leaves the code's class queued in the form; a write resets the form and closes the dialog; ids stay unique |
| ChartOfAccounts.AccountsPage.ToggleActive | src/pages/admin/ComptesComptables.tsx:159-164 | writes the negation of the shown flag to that row; ids stay unique |
| ChartOfAccounts.AccountsPage.SetDialogOpen | src/pages/admin/ComptesComptables.tsx:359 | opens or closes the dialog, form untouched |
| ChartOfAccounts.AccountsPage.SetSearchTerm | src/pages/admin/ComptesComptables.tsx:269 | the search field sets the search term |
| ChartOfAccounts.AccountsPage.SetFilterClasse | src/pages/admin/ComptesComptables.tsx:273 | the select sets the class filter |
| ChartOfAccounts.AccountsPage.ClickClasseCard | src/pages/admin/ComptesComptables.tsx:249 | a card click moves the filter as `CardFilter` says |
| PaymentTables.FilledIsTrimGuard | src/pages/admin/PaymentCategories.tsx:68 | the completeness check is the trim guard on code and label |
| PaymentTables.CategorySelected | src/pages/admin/PaymentCategories.tsx:86 | `selectedCatId` is truthy: present and non-empty |
| PaymentTables.MethodsOf | src/pages/admin/PaymentCategories.tsx:157 | a category's method list never exceeds the table |
| PaymentTables.MethodsOfMembers | src/pages/admin/PaymentCategories.tsx:157 | a category's list holds exactly the methods naming that category |
| PaymentTables.NewCategory | src/pages/admin/PaymentCategories.tsx:74-76 | a new category holds the fresh id and the form's code and label, is active by default, and is numbered one past the number of categories |
| PaymentTables.NewMethod | src/pages/admin/PaymentCategories.tsx:92-95 | a new method holds the fresh id and the form's code and label, belongs to the selected category, is active by default, and is numbered one past that category's methods |
| PaymentTables.RenameCategory | src/pages/admin/PaymentCategories.tsx:69-72 | the edited category takes the form's code and label; ids, flags, order numbers and other rows are unchanged |
| PaymentTables.RenameMethod | src/pages/admin/PaymentCategories.tsx:87-90 | the edited method takes the form's code and label; its category, flag and order number and every other row are unchanged |
| PaymentTables.SetCategoryActive | src/pages/admin/PaymentCategories.tsx:106 | the category with the id takes the new flag; every other row is unchanged |
| PaymentTables.SetMethodActive | src/pages/admin/PaymentCategories.tsx:108 | the method with the id takes the new flag; every other row is unchanged |
| PaymentTables.CategoryInsertKeepsNumbering | src/pages/admin/PaymentCategories.tsx:74-76 | categories numbered 1..n stay numbered without gaps after an insert |
| PaymentTables.MethodInsertKeepsNumbering | src/pages/admin/PaymentCategories.tsx:92-95 | a category's methods numbered 1..n stay so after an insert into it; other categories' lists are unchanged |
| PaymentTables.RenameKeepsCategoryLists | src/pages/admin/PaymentCategories.tsx:87-90 | renaming a method commutes with listing a category's methods |
| PaymentTables.RenameKeepsNumbering | src/pages/admin/PaymentCategories.tsx:87-90 | an edit keeps every category's methods numbered 1..n |
| PaymentTables.ToggleCategoryTwice | src/pages/admin/PaymentCategories.tsx:104-111 | toggling a category twice from the shown value gives the table back |
| PaymentTables.ToggleMethodTwice | src/pages/admin/PaymentCategories.tsx:104-111 | toggling a method twice from the shown value gives the table back |
| PaymentTables.SavedCategories | src/pages/admin/PaymentCategories.tsx:69-77 | an edit keeps the table's length; an insert appends one row after the unchanged table |
| PaymentTables.SavedMethods | src/pages/admin/PaymentCategories.tsx:87-96 | an edit keeps the table's length; an insert appends one row after the unchanged table |
| PaymentTables.CategorySaveKeepsIds | src/pages/admin/PaymentCategories.tsx:67-83 | a category save with a fresh id keeps ids unique |
| PaymentTables.MethodSaveKeepsIds | src/pages/admin/PaymentCategories.tsx:85-102 | a method save with a fresh id keeps ids unique |
| PaymentTables.PaymentModesPage.constructor | src/pages/admin/PaymentCategories.tsx:40-49 | the page starts with the loaded tables, empty forms, nothing edited or selected, dialogs closed |
| PaymentTables.PaymentModesPage.OpenNewCategory | src/pages/admin/PaymentCategories.tsx:123 | a blank category form, nothing edited, dialog open |
| PaymentTables.PaymentModesPage.OpenEditCategory | src/pages/admin/PaymentCategories.tsx:143-144 | the category form filled from the category, dialog open |
| PaymentTables.PaymentModesPage.OpenNewMethod | src/pages/admin/PaymentCategories.tsx:151-152 | the category selected, a blank method form, dialog open |
| PaymentTables.PaymentModesPage.OpenEditMethod | src/pages/admin/PaymentCategories.tsx:162-163 | the category selected, the method form filled from the method, dialog open |
| PaymentTables.PaymentModesPage.SetCategoryDialogOpen | src/pages/admin/PaymentCategories.tsx:177 | opens or closes the category dialog, form untouched |
| PaymentTables.PaymentModesPage.EditCategoryForm | src/pages/admin/PaymentCategories.tsx:181-182 | the inputs set the category form |
| PaymentTables.PaymentModesPage.SetMethodDialogOpen | src/pages/admin/PaymentCategories.tsx:188 | opens or closes the method dialog, form untouched |
| PaymentTables.PaymentModesPage.EditMethodForm | src/pages/admin/PaymentCategories.tsx:192-193 | the inputs set the method form |
| PaymentTables.PaymentModesPage.HandleSaveCat | src/pages/admin/PaymentCategories.tsx:67-83 | a blank code or label changes nothing; otherwise the edited category is renamed, or a category numbered after all others is appended; the form is reset and the dialog closed; methods untouched; ids stay unique |
| PaymentTables.PaymentModesPage.HandleSaveMethod | src/pages/admin/PaymentCategories.tsx:85-102 | a blank field or no selected category changes nothing; otherwise the edited method is renamed (category kept), or a method numbered after its category's methods is appended to the selected category; the form is reset and the dialog closed; categories untouched; ids stay unique |
| PaymentTables.PaymentModesPage.ToggleActive | src/pages/admin/PaymentCategories.tsx:104-111 | writes the negation of the shown flag to the row of the chosen table only; ids stay unique |

## Left out

- Network and database. Loading, Supabase calls, refetching after a write, write errors,
  toasts, the saving and loading flags and the admin gate are left out. Tables are
  in-memory sequences and a write is applied to them directly.
- Refetched row order. After a write the pages reload ordered by code or `sort_order`; the
  model keeps the order in which rows were appended.
- Fresh ids and the database default `is_active` (taken to be true). New row ids are a
  parameter whose freshness is required; the database generates them.
- Date parsing. Timestamps are integers, and an unset or empty timestamp is `None`. The
  creation date is always set, so the comparator's missing-date branch (`return 0`) is
  never taken in the model.
- Rendering: JSX, icons, colours, badges and layout.
- Event ids and statuses are datatypes rather than strings.
- Text:
  - Characters are Unicode scalar values, while `reason.length` counts UTF-16 code units.
    The two differ only for characters outside the Basic Multilingual Plane.
  - `toLowerCase` is modelled on ASCII letters only.
- Browser limits: the input limits `maxLength` 10 and 200 on the account form are not
  modelled.
- The DA status lifecycle and its transitions are not part of this model. The timeline only
  reads the status.
- `src/utils/pdfExport.ts` is not part of this model.
- The class-filter select offers `'all'` and the seven class digits. The model represents
  its value as `ClassFilter` rather than a string that is parsed.

## Findings

| source | as written | input that shows it | evidently intended | confidence | as-written member | corrected member |
|---|---|---|---|---|---|---|
| src/pages/admin/ComptesComptables.tsx:99-136 | `setForm` queues the class taken from the code's first digit, but the update and the insert then send `parseInt(form.classe)` from the same render, i.e. the class the form held before the correction | a form whose class disagrees with its code's first digit, such as code "401000", label "Fournisseurs" and class 6, is written with class 6. Typing 401000 moves the select to 4 (line 384), so such a form arises only when class 6 is selected again afterwards (line 398), when an edited row's stored class already disagrees with its code, or, for other codes, when the code starts with 0, 8 or 9, which the code field does not reclassify | the account is saved with the class read from its code (4), as the auto-detection comment says; the correction as modelled would also save class 0, 8 or 9 for such codes, which lie outside the chart | high, not executed | ChartOfAccounts.StaleClasseIsWritten | ChartOfAccounts.SaveKeepsClassesFollowingCodes |
