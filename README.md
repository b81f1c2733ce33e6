# easymoney in Dafny

easymoney is a personal-finance tool. It has two halves.

The import half reads bank exports. These are credit-card statements with three columns and current-account statements with four. It normalises each file into one frame of `date, title, amount, kind` rows, converts the rows into `NewTransaction` records, and sums them per month. The model covers this in these modules:

- `Categories`, `Kinds` and `Groups`: the enum text and SQL codecs.
- `CreditFormat` and `DebitFormat`: the per-row normalisation of each export.
- `StrOps`: the text operations those formatters use (split on `-`, strip spaces).
- `Formatting`: the `Formatter` that collects frames.
- `Import`: the conversion into records and the per-month fold.

The other half is a terminal UI over the stored transactions, modelled in these modules:

- `Table`: the transaction table with a wrapping cursor.
- `Popup`: the edit form, built from `StringFields`, `CategoryFields` and `Buttons`.
- `Chart`: the monthly dashboard, with per-category totals and the 50/30/20 rule buckets.
- `Tabs`: the tab switcher.
- `LegacyApp`: the older single-table app.
- `Cursor`: the cursor arithmetic the three lists share.

Amounts are integers (cents), so sums are exact. Strings are sequences of characters and titles are taken to be ASCII, so a string's length is its byte length.

A polars frame is a sequence of `Row`s with optional fields, so nulls propagate as `None`. A `when(..)` on a null takes the `otherwise` branch. A list `get` past the end gives null.

Pure code is modelled as functions with lemmas. Code that updates fields in place is modelled as classes: `Formatter`, `StringField`, `CategoryField`, `PopupForm`, `TableComponent`, `ChartComponent` and the two `App`s. Their methods state the new state in terms of those functions. The loops that fill hash maps become methods with loop invariants, proved equal to a specification function: `Import.TransactionsByMonth` and `Chart.TransactionsByCategory`.

`src/app/popup.rs:12-147` has private copies of the text field, the category selector and the button, without a style. They behave the same as `src/app/stringfield.rs`, `src/app/categoryfield.rs` and `src/app/button.rs`, and the one set of classes models both.

## Model

| member | source | states |
|---|---|---|
| Categories.ToString | src/models/category.rs:19-31 | every category is written as one of the accepted names |
| Categories.FromStr | src/models/category.rs:39-52 | parsing succeeds exactly on the nine names, and only on exact, case-sensitive matches; it gives back the variant whose name was read; any other text is `UnknownEnum` of that text |
| Categories.ToSql | src/models/category.rs:33-37 | the SQL value is a text holding the category's own name: parsing it gives the category back |
| Categories.ColumnResult | src/models/category.rs:55-61 | a non-text column is `InvalidType`; a text reads back exactly when it is a name, and the variant read writes back to the same value |
| Categories.ToStringInjective | src/models/category.rs:21-29 | distinct categories have distinct names |
| Categories.RoundTrip | src/models/category.rs:19-52 | `from_str(c.to_string()) == Ok(c)` for every category |
| Categories.SqlRoundTrip | src/models/category.rs:33-61 | `column_result(to_sql(c)) == Ok(c)` for every category |
| Categories.LowerCaseRejected | src/models/category.rs:42-50 | "food" is rejected as `UnknownEnum("food")` |
| Categories.Next | src/app/categoryfield.rs:34-36 | stepping forward always changes the category |
| Categories.Previous | src/app/categoryfield.rs:38-40 | stepping back always changes the category |
| Categories.StepsInverse | src/app/categoryfield.rs:34-40 | stepping forward and back undo each other |
| Kinds.ToString | src/models/kind.rs:15-24 | every kind is written as one of the accepted names |
| Kinds.FromStr | src/models/kind.rs:32-43 | parsing succeeds exactly on the four names and inverts `ToString`; otherwise `UnknownEnum` of the text |
| Kinds.ToSql | src/models/kind.rs:26-30 | the SQL value is a text holding the kind's own name: parsing it gives the kind back |
| Kinds.ColumnResult | src/models/kind.rs:45-51 | non-text is `InvalidType`; a text reads back exactly when it is a name, and writes back to the same value |
| Kinds.ToStringInjective | src/models/kind.rs:17-22 | distinct kinds have distinct names |
| Kinds.RoundTrip | src/models/kind.rs:15-43 | `from_str(k.to_string()) == Ok(k)` for every kind |
| Kinds.SqlRoundTrip | src/models/kind.rs:26-51 | the SQL write/read pair gives back every kind |
| Kinds.LowerCaseRejected | src/models/kind.rs:35-41 | "income" is rejected |
| Groups.ToString | src/models/group.rs:15-23 | every group is written as "Fixed", "Savings" or "Variable" |
| Groups.FromStr | src/models/group.rs:31-41 | parsing succeeds exactly on those three names and inverts `ToString`; otherwise `UnknownEnum` |
| Groups.ToSql | src/models/group.rs:25-29 | the SQL value is a text holding the group's own name: parsing it gives the group back |
| Groups.ColumnResult | src/models/group.rs:43-49 | non-text is `InvalidType`; a text reads back exactly when it is a name, and writes back to the same value |
| Groups.ToStringInjective | src/models/group.rs:17-21 | distinct groups have distinct names |
| Groups.RoundTrip | src/models/group.rs:15-40 | `from_str(g.to_string()) == Ok(g)` for every group |
| Groups.SqlRoundTrip | src/models/group.rs:25-49 | the SQL write/read pair gives back every group |
| StrOps.Split | src/format/debit.rs:20-25 | splitting on "-" always yields at least one part |
| StrOps.JoinSplit | src/format/debit.rs:20-25 | joining the parts with "-" gives back the text |
| StrOps.PartsHaveNoSeparator | src/format/debit.rs:20-25 | no part contains "-" |
| StrOps.SplitCount | src/format/debit.rs:20-25 | there are at least two parts exactly when the text contains "-" |
| StrOps.SplitAroundSeparator | src/format/debit.rs:20-25 | splitting `a + "-" + b` splits a and b separately |
| StrOps.SplitPlain | src/format/debit.rs:20-25 | a text without "-" is one part, itself |
| StrOps.SplitJoin | src/format/debit.rs:20-25 | parts without "-", joined and split again, are the same parts |
| StrOps.TrimStart | src/format/format.rs:52 | the result is a suffix, the removed prefix is all spaces, and the result does not start with a space |
| StrOps.TrimEnd | src/format/format.rs:52 | the result is a prefix, the removed suffix is all spaces, and the result does not end with a space |
| StrOps.Strip | src/format/format.rs:52 | the result neither starts nor ends with a space |
| StrOps.StripIsSlice | src/format/format.rs:52 | the stripped text is a contiguous slice, and only spaces lie outside it |
| StrOps.StripIdempotent | src/format/format.rs:52 | stripping twice is stripping once |
| CreditFormat.Negate | src/format/credit.rs:20 | a null stays null; otherwise the result is the negation |
| CreditFormat.FormatRow | src/format/credit.rs:12-24 | date and title pass through and the amount is negated. The kind is "CreditBillPayment" exactly when the original amount is positive, decided before negation, and `Kind::from_str` accepts it. So a bill payment is stored negative and a purchase non-negative |
| CreditFormat.Format | src/format/credit.rs:26-28 | one output row per input row, in order, each formatted by `FormatRow`; every kind is accepted |
| CreditFormat.PurchaseScenario | src/format/credit.rs:13-20 | a -42.00 charge is stored as a 42.00 CreditPurchase |
| DebitFormat.ListGet | src/format/debit.rs:40-42 | a list `get` is null exactly past the end, and otherwise the element |
| DebitFormat.ShortDescription | src/format/debit.rs:37-52 | the intended rule, with `length` read as each row's part count: a null description gives a null title. Otherwise the title is present exactly when the description contains "-", and it is then the second part and free of "-". The `get(2)` fallback for a one-part split is null |
| DebitFormat.ShortDescriptionAsWritten | src/format/debit.rs:19-52 | the rule as written, where `length` is the frame's row count: in a frame of two or more rows it agrees with the intended rule; in a one-row frame the title is present exactly when there are three or more parts, and it is then the third part |
| DebitFormat.FormatRow | src/format/debit.rs:12-82 | columns are taken positionally; date and amount pass through and the title is the short description; the kind is "Income" exactly when the amount is positive, and `Kind::from_str` accepts it |
| DebitFormat.Format | src/format/debit.rs:84-90 | with the intended title rule: one output row per input row, in order, each formatted by `FormatRow`; every kind is accepted |
| DebitFormat.FormatAsWritten | src/format/debit.rs:84-90 | as written: one output row per input row, in order, each formatted by `FormatRow` except that the title follows the frame's height |
| DebitFormat.AsWrittenAgreesOnTallFrames | src/format/debit.rs:21-25 | on frames of two or more rows the code as written and the intended rule give the same frame |
| DebitFormat.OneRowFrameAsWritten | src/format/debit.rs:21-42 | a one-row file with description "a-b" gets a null title as written, and "b" under the intended rule |
| DebitFormat.IncomeScenario | src/format/debit.rs:54-58 | a 1500.00 credit is an Income of unchanged amount |
| DebitFormat.ShortDescriptionScenario | src/format/debit.rs:21-42 | "a-b" is shortened to "b" by the intended rule, and as written in frames of two or more rows; as written in a one-row frame its title is null |
| Formatting.CheckKind | src/format/format.rs:19-25 | 3 columns is Credit, 4 is Debit, any other count is None |
| Formatting.FormatFrame | src/format/format.rs:27-37 | each row of a credit frame becomes the credit formatting of the row read, and each row of a debit frame its debit formatting; same row count, and every kind is accepted |
| Formatting.StripTitles | src/format/format.rs:52 | only the title of each row changes, to its stripped value |
| Formatting.DropNulls | src/format/format.rs:54 | a row is kept exactly when it has no null |
| Formatting.DropNullsAppend | src/format/format.rs:54 | dropping nulls keeps row order |
| Formatting.DropNullsKeepsComplete | src/format/format.rs:54 | a frame without nulls is unchanged |
| Formatting.Clean | src/format/format.rs:49-55 | the rows kept are exactly the complete rows among the title-stripped ones |
| Formatting.CleanAppend | src/format/format.rs:49-55 | stripping and dropping nulls work frame by frame and keep the order of the frames |
| Formatting.DebitRowWithoutSeparatorDropped | src/format/format.rs:49-55 | a debit row whose description has no "-" disappears from the built frame |
| Formatting.Formatter.constructor | src/format/format.rs:12-17 | a new formatter is empty |
| Formatting.Formatter.Concat | src/format/format.rs:39-47 | the first frame replaces the placeholder and clears `empty`; later frames go before the rows already held |
| Formatting.Formatter.Add | src/format/format.rs:27-37 | an unrecognised column count changes nothing; otherwise the formatted frame is concatenated; `empty` never goes back to true; once filled, the built frame becomes the new frame's cleaned rows followed by the rows built before |
| Formatting.Formatter.Build | src/format/format.rs:49-55 | a never-filled formatter fails with a missing "title" column. Otherwise the result is `Clean` of the rows held: a row is kept exactly when it is a complete title-stripped row, in frame order (`CleanAppend`); every kind is accepted |
| Import.ConvertRow | src/main.rs:68-73 | a row converts exactly when date, title, amount and kind are present and the kind is accepted. Title and amount are copied and the kind reads back as the text |
| Import.ConvertRows | src/main.rs:40-76 | conversion succeeds exactly when every row converts, giving one record per row in order; otherwise it reports the first failing row |
| Import.BuiltFrameConverts | src/main.rs:66-74 | every frame the formatter builds converts without error |
| Import.Months | src/main.rs:78-86 | the months are exactly the (year, month) pairs of the transactions |
| Import.MonthTotalOfOtherMonth | src/main.rs:81-82 | a month without transactions totals zero |
| Import.TransactionsByMonth | src/main.rs:78-86 | the map's keys are exactly the months of the transactions, each holding the sum of that month's amounts; empty input gives an empty map |
| Cursor.NextIndex | src/app/table.rs:97-109 | on a non-empty list the next row is in range |
| Cursor.PrevIndex | src/app/table.rs:111-123 | from a valid row, or with nothing selected, the previous row is in range |
| Cursor.MovesInverse | src/app/table.rs:97-123 | `previous_row` undoes `next_row` and vice versa |
| Cursor.Advance | src/app/table.rs:97-109 | repeated moves stay in range |
| Cursor.AdvanceWraps | src/app/table.rs:97-109 | k moves down from row i reach i + k, wrapping once past the end |
| Cursor.FullCycle | src/app/table.rs:97-109 | one move per row returns to the starting row |
| StringFields.Edit | src/app/stringfield.rs:35-47 | a character is appended exactly when the value is shorter than the bound, and otherwise refused; Backspace drops the last character, and does nothing on an empty value; other keys change nothing; so the value never grows beyond max(initial length, bound) |
| StringFields.CharThenBackspace | src/app/stringfield.rs:37-44 | below the bound a character is appended, and Backspace then restores the value; a character at the bound is refused |
| StringFields.OtherKeysIgnored | src/app/stringfield.rs:45 | keys other than characters and Backspace leave the value alone |
| StringFields.StringField.constructor | src/app/stringfield.rs:18-25 | label, value and bound are as given |
| StringFields.StringField.ClearValue | src/app/stringfield.rs:27-29 | the value becomes empty |
| StringFields.StringField.GetValue | src/app/stringfield.rs:31-33 | returns the value and changes nothing |
| StringFields.StringField.HandleKeyEvent | src/app/stringfield.rs:35-47 | the new value is `Edit` of the old one, so it stays within the bound |
| StringFields.StringField.CursorOffset | src/app/stringfield.rs:49-52 | x is label length + value length + 2, and y is 0 |
| CategoryFields.ForwardThenBack | src/app/categoryfield.rs:26-40 | Right or ';' followed by Left or 'j' returns to the same category, and so does the reverse |
| CategoryFields.StepMoves | src/app/categoryfield.rs:26-32 | the selection moves exactly on Right, Left, ';' and 'j' |
| CategoryFields.CategoryField.constructor | src/app/categoryfield.rs:18-24 | label and selection are as given |
| CategoryFields.CategoryField.HandleKeyEvent | src/app/categoryfield.rs:26-32 | Right or ';' steps forward, Left or 'j' steps back, other keys keep the selection |
| CategoryFields.CategoryField.Next | src/app/categoryfield.rs:34-36 | the selection steps forward |
| CategoryFields.CategoryField.Previous | src/app/categoryfield.rs:38-40 | the selection steps back |
| CategoryFields.CategoryField.Value | src/app/categoryfield.rs:42-44 | returns the selection and changes nothing |
| Buttons.Button.HandleKeyEvent | src/app/button.rs:20-25 | pressed exactly on Enter |
| Buttons.ModifiersIgnored | src/app/button.rs:21 | only the key code matters, not the modifiers |
| Popup.PopupFocus.Next | src/app/popup.rs:157-165 | Tab always moves the focus |
| Popup.ThreeTabsCycle | src/app/popup.rs:158-164 | three Tabs return the focus to where it was, visiting all three fields |
| Popup.InitialCategory | src/app/popup.rs:184-188 | the transaction's group, or Other when it has none |
| Popup.Edited | src/app/popup.rs:226-231 | title and group are replaced; id, date, amount and kind are the original's |
| Popup.UntouchedEdit | src/app/popup.rs:176-231 | confirming an untouched form gives back the transaction, with its group filled in |
| Popup.PopupForm.constructor | src/app/popup.rs:176-193 | the form starts focused on the title, with the transaction's title, a bound of 49 characters, and the initial category |
| Popup.PopupForm.HandleKeyEvent | src/app/popup.rs:195-214 | Tab only moves the focus. Any other key reaches only the focused field. A result comes back exactly when Enter reaches Ok with a title of at least three characters, and it is the edited transaction |
| Popup.PopupForm.ValidateTitle | src/app/popup.rs:216-221 | a title is valid exactly when it has at least three characters |
| Popup.PopupForm.NextField | src/app/popup.rs:222-224 | the focus moves to the next field |
| Popup.PopupForm.GetTransaction | src/app/popup.rs:226-231 | the edited transaction from the current field values |
| Table.TableComponent.constructor | src/app/table.rs:87-95 | needs a non-empty list; row 0 is selected, the form is closed and prepared for row 0 |
| Table.TableComponent.NextRow | src/app/table.rs:97-109 | the selection is the wrapped next row; rows and form are unchanged |
| Table.TableComponent.PreviousRow | src/app/table.rs:111-123 | the selection is the wrapped previous row; rows and form are unchanged |
| Table.TableComponent.GetCurrentRow | src/app/table.rs:125-127 | returns the selected row |
| Table.TableComponent.SetCurrentRow | src/app/table.rs:129-131 | only the selected row is replaced |
| Table.TableComponent.Run | src/app/table.rs:133-150 | While the form is open, a returned transaction replaces the selected row and the form stays open. Otherwise Enter opens a fresh form on the selected row, k or Down moves down, l or Up moves up, and other keys do nothing |
| Chart.KeyOf | src/app/chart.rs:77-80 | a transaction's key is one of the totals' keys, and it is "[N/A]" exactly when the transaction has no group |
| Chart.TransactionsByCategory | src/app/chart.rs:69-84 | the keys are every category name plus "[N/A]", each holding the sum of its transactions' amounts |
| Chart.SumOverStep | src/app/chart.rs:81 | a transaction adds its amount once to distinct keys that include its key, and nothing otherwise |
| Chart.TotalsCoverEveryAmount | src/app/chart.rs:76-83 | the category totals add up to the sum of all amounts |
| Chart.RuleListsPartition | src/app/chart.rs:26-34 | every category is in exactly one of NEEDS, WANTS and SAVINGS |
| Chart.RuleBucketsPartition | src/app/chart.rs:112-132 | needs + wants + savings + the ungrouped total is the sum of all amounts, so ungrouped rows count in no bucket |
| Chart.NewMonthSummary | src/app/chart.rs:159-187 | the summary is for the given month, and its rule buckets plus ungrouped expenses make up its expense total |
| Chart.SummaryIgnores | src/app/chart.rs:160-176 | a transaction of another month, or a credit bill payment, leaves the summary unchanged |
| Chart.SummaryCountsIncome | src/app/chart.rs:160-181 | an Income of the month adds to the income, and nothing else of the summary changes: expenses, 50/30/20 buckets and category totals count purchases only |
| Chart.SummaryCountsExpense | src/app/chart.rs:160-181 | a debit or credit purchase of the month adds its amount to the expenses, to the total of its own category (or "[N/A]") and no other, and to the 50/30/20 bucket of its group; the income is unchanged |
| Chart.DistinctMonths | src/app/chart.rs:87-92 | the months of the transactions, each once, all valid month numbers |
| Chart.SortDesc | src/app/chart.rs:97-98 | the result is a permutation in non-increasing key order |
| Chart.Unsorted | src/app/chart.rs:94-96 | one summary per distinct month, none repeated |
| Chart.SummariesAsWritten | src/app/chart.rs:86-102 | the month summaries as the source orders them: a permutation, non-increasing in month + year |
| Chart.AsWrittenNotChronological | src/app/chart.rs:97 | with January 2025 and December 2024, the source's order lists December 2024 first |
| Chart.MonthSummaries | src/app/chart.rs:86-102 | one summary per month of the transactions, each month once, strictly newest first |
| Chart.CorrectedOrderIsChronological | src/app/chart.rs:97 | the same two months come out January 2025 first |
| Chart.MaxBarHeight | src/app/chart.rs:269-274 | None exactly when there are no months; otherwise the largest expense total, attained by some month |
| Chart.ChartComponent.constructor | src/app/chart.rs:205-217 | needs transactions (the maximum is unwrapped); month 0 is selected and the chart holds their summaries, in the corrected newest-first order, and the largest expense |
| Chart.ChartComponent.UpdateChart | src/app/chart.rs:259-267 | the items become the month summaries in the corrected newest-first order, and the maximum their largest expense total; the selection is kept |
| Chart.ChartComponent.NextRow | src/app/chart.rs:219-231 | the selection is the wrapped next month |
| Chart.ChartComponent.PreviousRow | src/app/chart.rs:233-245 | the selection is the wrapped previous month |
| Chart.ChartComponent.HandleKeyEvents | src/app/chart.rs:251-257 | 'k' moves down and 'l' moves up; no other key, arrows included, moves the selection |
| Tabs.FromRepr | src/app/app.rs:16-23 | a tab exists exactly at positions 0 and 1, and sits at its own position |
| Tabs.ReprRoundTrip | src/app/app.rs:16-23 | every tab is found at its own position |
| Tabs.Next | src/app/app.rs:32-36 | moves one position right, staying on the last tab |
| Tabs.Previous | src/app/app.rs:26-30 | moves one position left, staying on the first tab |
| Tabs.TabsClamp | src/app/app.rs:25-37 | Home is fixed by next and Table by previous, so the tabs do not wrap; elsewhere each undoes the other |
| Tabs.OnKey | src/app/app.rs:79-90 | only q or Esc queues a Quit event; only the tab keys can change the tab; a key never stops the loop |
| Tabs.OnEvent | src/app/app.rs:63-73 | the loop keeps running exactly when it ran and the event is not Quit |
| Tabs.RunningUntilQuit | src/app/app.rs:62-77 | after a run of events the loop still runs exactly when it ran before and no Quit event came |
| Tabs.SentOnlyQuits | src/app/app.rs:79-81 | the queue only grows, and only by Quit events |
| Tabs.App.constructor | src/app/app.rs:50-60 | running, on the Table tab, nothing sent, the table built over the transactions |
| Tabs.App.Quit | src/app/app.rs:92-94 | running becomes false; quitting again changes nothing more |
| Tabs.App.NextTab | src/app/app.rs:96-98 | the tab moves right |
| Tabs.App.PreviousTab | src/app/app.rs:100-102 | the tab moves left |
| Tabs.App.HandleKeyEvents | src/app/app.rs:79-90 | q or Esc only sends a Quit event. ';' or Right and 'j' or Left switch tabs and are never forwarded. Other keys are forwarded to the table exactly when the Table tab is shown |
| Tabs.App.Step | src/app/app.rs:64-73 | the new running flag, queue and tab are `OnEvent` of the old ones; a Quit event stops the loop; ticks and non-key events change no state; a key event is forwarded exactly when `handle_key_events` passes it to the table |
| Tabs.App.Run | src/app/app.rs:62-77 | events are taken in order until the first Quit event, which stops the loop; the final running flag, queue and tab are those after the events taken |
| LegacyApp.App.constructor | src/app.rs:86-94 | needs a non-empty list; row 0 is selected and the scroll content is (len - 1) rows high |
| LegacyApp.App.NextRow | src/app.rs:95-108 | the wrapped next row is selected and the scroll position follows it |
| LegacyApp.App.PreviousRow | src/app.rs:110-123 | the wrapped previous row is selected and the scroll position follows it |
| LegacyApp.App.HandleKey | src/app.rs:129-138 | only presses count: q or Esc quit, k or Down move down, l or Up move up, anything else changes nothing; the new row is `OnEvent` of the old one |
| LegacyApp.App.Run | src/app.rs:125-141 | events are read in order until the first q or Esc press; the final row is the one reached after the events taken, and the scroll position follows it |
| LegacyApp.OnEvent | src/app.rs:129-138 | the row stays in range, and only a press of k, Down, l or Up moves it |
| LegacyApp.DownPressesAdvance | src/app.rs:95-108 | n presses of k or Down move the cursor n rows down, wrapping as `Cursor.Advance` |
| LegacyApp.NonPressesIgnored | src/app.rs:129-130 | events that are not key presses never move the cursor |

## Left out

- Rendering, layout, colours, styles, footers, `ref_array` and `{:.2}` formatting: these are terminal drawing with no state to speak of.
- The floating-point helpers and the percentage division in `src/app/chart.rs`: amounts are exact integers here.
- `src/event.rs`: asynchronous event delivery. Its channel becomes the `sent` sequence the application appends to and the event sequence `Run` consumes; ticks are not generated.
- `src/tui.rs`, terminal setup in `init_app`, `read_csv`, `read_folder` and `main`: terminal and file I/O.
- `src/db.rs`: SQLite persistence. Its duplicate filtering happens inside the database.
- `src/labeling.rs`: its classifier is unimplemented.
- `src/format.rs`: a superseded draft of the formatter. It names kinds that do not exist.
- `Categories.FromStr`: `src/models/category.rs:9-17` declares seven categories, but `src/app/chart.rs:26-34` also uses Supermarket and Trips. The model has all nine, named as the chart uses them.
- `Categories.Next`: `next` and `previous` are called but not defined in the repository's files. The model steps cyclically through the declaration order. Only facts that hold for any such cycle (the step changes the category, and the two steps are inverses) are used.
- `Records.Transaction`: `src/models/transaction.rs:12` declares the group as an optional `Group`, but every use reads it as an optional `Category`, which the model follows.
- `Table.TableComponent.Run`: the form's own `run` does not exist in the repository's files, so its answer is a parameter. Nothing in the table closes the form once it is open, and the model keeps that.
- `Tabs.App.HandleKeyEvents`: `TableComponent::handle_key_events` does not exist, so the key forwarded to the table is returned instead of being applied. The unused `counter` field is not modelled.
- `Formatting.Formatter.Add`: a frame's column types are a precondition (`WellTyped`): dates, texts and numbers in the columns each layout expects. Polars would fail at run time on anything else.
- `Formatting.Formatter.constructor`: the frame passed to `Formatter::new` is always the empty default. The model therefore starts from no rows, and `build` on a never-filled formatter fails as selecting a missing `title` column would.
- `StringFields.StringField.CursorOffset`: the cast of the offset to a 32-bit integer is not modelled.
- `Chart.MonthSummaries`: months come in first-appearance order rather than hash-set order before sorting. Months with equal keys may come out in either order, as in the source.
- `Chart.ChartComponent.UpdateChart`: it keeps a selection that may be past the end of the new month list, as the source does. Only the constructor calls it. It recomputes the items in the corrected order of `Chart.MonthSummaries`, not the `month + year` order the source uses (see Findings).
- `CreditFormat.ReadRow`: the credit formatter selects `amount` (and later `title`) by name, so a three-column file with other headers makes the source fail. The model reads the three cells by position and does not model that failure.
- `DebitFormat.Format`: the formatter chain (`Formatting.FormatFrame`, `Formatting.Formatter.Add`) uses the intended per-row title rule; the code as written is `DebitFormat.FormatAsWritten` (see Findings).
- `Chart.ChartComponent.constructor`: its items are the corrected `Chart.MonthSummaries`, not the `month + year` order of `src/app/chart.rs:259-267` (see Findings); `Chart.SummariesAsWritten` is that order.
- `LegacyApp.App.Run`: the source loops forever reading the terminal. The model stops when the given events run out.

## Findings

| source | as written | input that shows it | evidently intended | confidence | as-written member | corrected member |
|---|---|---|---|---|---|---|
| src/format/debit.rs:21-25 | `length` is `split(..).len()`, the expression length, which is the frame's row count broadcast to every row, not each description's part count | a one-row debit file whose description is "a-b": the title is `get(2)`, null, and `build` drops the row; "a-b-c" gives "c" | each row's part count decides: "b" in both cases | not executed | DebitFormat.OneRowFrameAsWritten | DebitFormat.Format |
| src/app/chart.rs:97 | month summaries are sorted by `month + year`, then reversed | transactions in 2025-01 (key 2026) and 2024-12 (key 2036): December 2024 is listed before January 2025 | newest month first, by (year, month) | not executed | Chart.AsWrittenNotChronological | Chart.MonthSummaries |

`Chart.SummariesAsWritten` keeps the source's key. `Chart.MonthSummaries` sorts by `year * 12 + month - 1` and is what `ChartComponent` uses. It is proved strictly newest first, and `Chart.CorrectedOrderIsChronological` shows it on the same input.

`DebitFormat.FormatAsWritten` keeps the frame-height test. `DebitFormat.AsWrittenAgreesOnTallFrames` shows that it only matters for one-row files. `DebitFormat.Format` decides per row and is what the formatter uses.
