# Verification of the CHECK-constraint synchroniser and four smaller protocols

This project models the logic of `scripts/sync_check_constraints.py` - the tool that
decides whether a CHECK predicate in the SQLAlchemy models and its reflection in
PostgreSQL are the same predicate, and writes an Alembic migration from the answer -
and proves what its answer and its migration mean. It also models four small
protocols of the same repository: the table creator with retries
(`scripts/lazy_table_creator.py`), the KYC settings cache
(`app/kyc_config_schema.py`), the deferred start-up hook (`app/__init__.py`) and the
catalogue of organisation categories and types (`app/admin/classification.py`).

Check everything with `dafny verify dfyconfig.toml`.

## How the model is laid out

Text is modelled character by character. `_canonicalize_bool` is `BoolCanon.CanonBool`, its
part after the peeling `CanonBare`, `_canonicalize_operand` is `CanonOperand`; one pass of
`_canonicalize_arith` is `ArithCanon.FindPair` followed by `Delete`. Every scanning loop of the source is a
method with a loop, proved equal to a specification function; the theorems are about
those functions.

| files | what they hold |
|---|---|
| `Lex`, `Splitter` | characters, stripping, parenthesis depth outside literals; cutting a text at the words "and" and "or" of depth zero |
| `BoolCanon`, `BoolGrammar`, `BoolForms`, `BoolPeel`, `BoolCorrect`, `BoolTheorems`, `BoolGroups`, `BoolCounts`, `BoolNot`, `BoolTight` | the boolean canonicaliser on text; a grammar of spellings with any grouping and white space; flattened syntax and its minimal printing; where the peeling of parentheses, which also counts those in literals, is right; that the output is then the minimal printing; what follows from that; what becomes of groups the code does not recognise; what the code may do to any text at all, and from it exactly when a group directly after `not` comes out right |
| `ArithCanon`, `ArithText` | the remover of arithmetic grouping on text, and what it does to every text whatever |
| `ArithGrammar`, `ArithScan`, `ArithCorrect`, `ArithMeaning`, `ArithReading` | spelled expressions of binary operators with PostgreSQL's precedence (documentation section 4.1.6); what the scanners see of them; that the remover computes an erasure on trees; exactly when the erasure keeps the parse tree; that a text has one parse tree |
| `Interval` | interval literals, with exact decimals |
| `Mixed` | predicates of both layers: what the arithmetic step leaves, read as a spelling of the boolean layer |
| `Inventory`, `Migration`, `Reconcile`, `Normalize` | inventories and their comparison; migrations as programs of create and drop steps; one run of the tool and what the database holds after it; how the canonicalisers decide what is replaced |
| `LazyTables`, `KycCache`, `Startup`, `Classification` | the four smaller protocols |

## What was found

Where the code does not have a property its documentation or purpose suggests, the
code is modelled as it is, a lemma names an input that shows it, and another lemma
says exactly when the property holds.

- The grouping test looks at the operator on the right only when there is none on the
  left. `x = (a + b) * c` and `x = a + b * c` get one normal form
  (`ArithMeaning.GroupLostBeforeTimes`), and the comparison then hides the difference
  (`Normalize.DifferenceHidden`). `ArithMeaning.MeaningKeptExactly` is the exact
  condition; for expressions of table operators `ArithMeaning.TwoSidedSound` is a rule that
  needs none.
- The operator table lacks `^`, `is` and others: `(a + b) ^ c` and `a = (b is c)` lose
  their grouping too (`ArithMeaning.GroupLostBeforePower`, `ArithMeaning.GroupLostAroundIs`).
- After `not(` the boolean canonicaliser reads up to the matching parenthesis and drops
  the rest: `not(a) is null` becomes `not a` (`BoolTheorems.NotAIsNull`).
- Parentheses inside a literal are counted when groups are recognised. A redundant
  group around `a='('` is kept (`BoolGroups.LiteralKeepsGroup`);
  `(a='(') and (b=f(1)||')')` is taken for one group and becomes the unbalanced text
  `a='(') and (b=f(1)||')'` (`BoolGroups.TwoGroupsPeeled`, `TwoGroupsExample`); and
  `not(a like ')x')` and `not(a like ')y')` get one canonical form, so the comparison
  calls different predicates equal (`BoolGroups.LiteralHidesRest`, `HiddenExample`).
  A predicate is canonicalised rightly when each of its groups balances with the
  literals counted and nothing else looks like a group (`BoolPeel.Clean`,
  `BoolCorrect.Canonical`). For one group the exact conditions are proved in each place
  where the code meets one: alone (`BoolGroups.GroupExactly`), as an operand
  (`OperandExactly`), after a spaced `not` (`NegatedExactly`) and directly after `not`
  (`BoolTight.TightExactly`). Balance is enough everywhere; the other cases in which the
  output is right are a group that is needed and already spelled as the canonical form
  prints it (`BoolGroups.KeptGroupIsRight`), and directly after `not` a content that is
  never closed and ends in a `not(...)` of its own, which drops the parenthesis read too
  much (`BoolGroups.ErrorsCancel`).
- The documentation of `_interval_token` says MM:SS for a two-field clock; the code reads
  HH:MM (`Interval.TwoFieldsExactly`); the two agree only for zero
  (`Interval.MinutesSecondsExactly`).
- The header of the script says a legacy constraint is never dropped by the tool; the
  code drops it when `--prune-db` and `--drop-legacy` name it. The model follows the code
  (`Reconcile.DropsIs`). The name alone is compared, so the row goes from every table.
- The arithmetic step keeps redundant groups around operators that bind looser than `+`,
  as in `a = (b || c)`, so predicates that differ only there are replaced
  (`ArithReading.RedundantPairKept`). `ArithReading.ErasedGrouped` says exactly when no
  redundant group is kept, and then texts agree exactly when parse trees do
  (`ArithReading.TextsAgreeExactly`).
- A failed load of the KYC rows is cached like a good one (`KycCache.OutageOutlivesItself`).
  A read returns the decode of the rows at the last load exactly when that load got
  through or the rows hold nothing but defaults (`KycCache.ReadExactly`).
- The start-up hook sets its flag before it starts the workers: a failed start is never
  repeated (`Startup.FailedStartIsFinal`, with the run `Startup.FirstStartRaises`). Once the
  flag is set and nobody runs the body, all workers were started exactly when no start
  raised (`Startup.StartedExactly`).
- `type_edit` checks one form field and applies another
  (`Classification.AppliedCategory`, `NewCategoryNotApplied`).
- `category_edit` and `type_edit` deactivate without the guards of `category_deactivate`
  and `type_deactivate`: exactly when a form without `is_active` meets active types
  (`Classification.EditIgnoresDependencies`) or live organisations
  (`Classification.EditIgnoresUsers`). The guard of `category_deactivate` counts
  organisations by the category's own code; exactly when it overlooks one is
  `Classification.OrganisationsOverlooked`, and `OrganisationLeftBehind` is a run that
  gets there.

## Assumptions

- Boolean predicates are well-formed (`BoolGrammar.Wf`): atoms and the text after a group
  are balanced outside literals and hold no "and" or "or" of their own. Two conditions on
  a spelling are stated where they are needed: `BoolPeel.Clean`, that the peeling of
  parentheses is right on it, which holds for all predicates whose literals hold no
  unbalanced parentheses (`BoolPeel.TameClean`), and `BoolTheorems.Faithful`, that no text
  follows the group of a gapless `not(`.
- Arithmetic expressions (`ArithGrammar.LexOk`) are lower-case words and quoted literals
  joined by binary operators, spaces only around operators, as the rewriting before the
  step leaves them. `ArithText` has no such assumption.
- Operators of one precedence associate to the left in the grammar; PostgreSQL refuses
  chains of comparisons, which the model does not.
- PostgreSQL stores its own rendering of a constraint (a parameter); that the rendering
  keeps the normal form, and is stable on what is stored, are hypotheses of the lemmas
  that use them.

## Model

| member | source | states |
|---|---|---|
| Splitter.SplitTopLevel | scripts/sync_check_constraints.py:556-601 | the loop with its depth counter and literal flag returns the stripped non-empty texts between the cuts of its specification |
| Splitter.CutsExact | scripts/sync_check_constraints.py:566-599 | the cuts are exactly the places where the operator stands at depth zero, outside literals, on identifier boundaries |
| Splitter.CutsSpelled | scripts/sync_check_constraints.py:516-601 | for "and" and "or" the same with the boundary spelled out: neither neighbour is a letter, a digit or an underscore |
| Splitter.NameUncut | scripts/sync_check_constraints.py:516-601 | a name is one part, though a boolean word may begin or end it |
| Splitter.PiecesRejoin | scripts/sync_check_constraints.py:556-601 | the unstripped pieces with the operator between them are the input |
| Splitter.PartsHaveNoCut | scripts/sync_check_constraints.py:556-601 | no part holds the operator at its own top level; parts are trimmed and not empty |
| Splitter.SplitConcat | scripts/sync_check_constraints.py:556-601 | splitting a text that is a, the operator, b gives the parts of a followed by the parts of b |
| Splitter.PartsLength | scripts/sync_check_constraints.py:556-601 | parts are no longer than the text and shorter when there are several, the measure of the recursion |
| BoolCanon.OuterParensWrap | scripts/sync_check_constraints.py:520-532 | true exactly when one pair encloses the text: depth positive strictly inside, zero at the end |
| BoolCanon.MatchingParen | scripts/sync_check_constraints.py:543-553 | the loop finds the first closing parenthesis that brings the depth to zero, or -1 |
| BoolCorrect.PrecSpell | scripts/sync_check_constraints.py:604-613 | the precedence found for a clean spelling is that of its syntax under any grouping and white space |
| BoolPeel.TameClean | scripts/sync_check_constraints.py:520-540 | a predicate whose literals hold no unbalanced parentheses is clean: groups are recognised, and nothing else |
| BoolPeel.PrintAlike | scripts/sync_check_constraints.py:520-540 | what is printed looks to the peeling test like what was read, so peeling the output is right where peeling the input was |
| BoolCorrect.Canonical | scripts/sync_check_constraints.py:616-674 | the canonical form of a clean spelling within blank margins is the minimal printing of the syntax the code reads, through both mutually recursive functions |
| BoolTheorems.CanonicalForm | scripts/sync_check_constraints.py:630-674 | the same without margins |
| BoolTheorems.Unambiguous | scripts/sync_check_constraints.py:616-674 | a text spells one flattened syntax at most, whatever its literals hold |
| BoolTheorems.PrintInjective | scripts/sync_check_constraints.py:630-674 | different flattened syntax has different minimal printings |
| BoolTheorems.FaithfulExactly | scripts/sync_check_constraints.py:660-674 | the output of a clean predicate prints its own syntax if and only if no text follows the group of a gapless not |
| BoolTheorems.SameCanonicalForm | scripts/sync_check_constraints.py:616-674 | two clean and faithful predicates get one canonical form if and only if their flattened syntax is equal |
| BoolTheorems.CutShort | scripts/sync_check_constraints.py:664-674 | after not( the code reads up to the parenthesis that closes with those in literals counted; whatever follows does not reach the output |
| BoolTheorems.TrailingTextIsLost | scripts/sync_check_constraints.py:664-674 | what follows the group of a gapless not does not reach the output |
| BoolTheorems.NotAIsNull | scripts/sync_check_constraints.py:664-674 | not(a) is null and not(a) get one canonical form |
| BoolGroups.GroupExactly | scripts/sync_check_constraints.py:520-540 | a group at the top of a predicate comes out right if and only if its content balances with the parentheses of its literals counted |
| BoolGroups.OperandExactly | scripts/sync_check_constraints.py:616-627 | a group that is an operand comes out right if and only if it balances so, or it is an or inside an and that is spelled as it is printed |
| BoolGroups.NegatedExactly | scripts/sync_check_constraints.py:655-663 | the same after a not with a gap |
| BoolGroups.TwoGroupsPeeled | scripts/sync_check_constraints.py:520-540 | two groups joined by and whose parentheses look like one pair are peeled, and the output does not balance |
| BoolGroups.LiteralHidesRest | scripts/sync_check_constraints.py:664-674 | two negated predicates that differ after a parenthesis inside a literal get one canonical form |
| BoolGroups.KeptGroupIsRight | scripts/sync_check_constraints.py:616-627 | an unrecognised group that is needed comes out right, so being clean is not necessary |
| BoolGroups.ErrorsCancel | scripts/sync_check_constraints.py:664-674 | in not(p or not(b)) with an unclosed parenthesis in a literal of p two errors cancel and the output is right |
| BoolCounts.CanonFades | scripts/sync_check_constraints.py:630-674 | for every text: the output holds no more ink and no more calls than the input; with as much ink no more parentheses in front, and with as many calls the same balance |
| BoolNot.WholeComes | scripts/sync_check_constraints.py:616-674 | when the last operand of a predicate is replaced, the whole comes out right if and only if the replacement does and no run on the way to it looks like a group |
| BoolTight.InkLost | scripts/sync_check_constraints.py:543-553 | whatever the content of the group after not: if it is closed too early and anything but blanks and parentheses follows, the output is wrong |
| BoolTight.TightExactly | scripts/sync_check_constraints.py:664-674 | a group directly after not comes out right if and only if its content balances with its literals counted, or is never closed and ends in a gapless not that drops what was read too much |
| BoolGroups.LiteralKeepsGroup | scripts/sync_check_constraints.py:520-540 | a redundant group around a='(' is kept, so two spellings of one predicate differ |
| BoolTheorems.ValuePreserved | scripts/sync_check_constraints.py:616-674 | every well-formed reading of the canonical form has the value of the predicate under every assignment of true, false and null to its atoms |
| BoolTheorems.CanonicalIsReadable | scripts/sync_check_constraints.py:616-674 | the canonical form of a clean spelling is again a well-formed clean spelling, with nothing for the code to lose |
| BoolTheorems.Idempotent | scripts/sync_check_constraints.py:616-674 | canonicalising twice changes nothing |
| BoolTheorems.FewestParens | scripts/sync_check_constraints.py:616-674 | every spelling has at least the parentheses of the minimal printing of its syntax, and one more when it is a group |
| BoolTheorems.Minimal | scripts/sync_check_constraints.py:616-674 | a spelling of the same syntax never has fewer opening parentheses than the output |
| ArithCanon.SkipStringLiteral | scripts/sync_check_constraints.py:796-808 | the loop stops just past the literal, doubled quotes inside, or at the end |
| ArithCanon.MatchingParenStr | scripts/sync_check_constraints.py:811-834 | the loop finds the parenthesis that closes at depth zero outside literals, or -1 |
| ArithCanon.ArithTopOp | scripts/sync_check_constraints.py:837-895 | the loop computes the weakest depth-zero operator, or -1 at a boolean word or comma |
| ArithCanon.PrevOp | scripts/sync_check_constraints.py:898-920 | the table operator the text before the parenthesis ends with, spaces aside |
| ArithCanon.NextOp | scripts/sync_check_constraints.py:923-940 | the table operator the text after the parenthesis begins with, spaces aside |
| ArithCanon.ArithParenRedundant | scripts/sync_check_constraints.py:943-977 | the loopless test of the source computes its specification; what that asks of each neighbour is in UnsqueezedKept, GroupKeptBeforeTimes and RedundantGone |
| ArithCanon.FindPair | scripts/sync_check_constraints.py:990-1025 | one pass finds the first deletable pair |
| ArithCanon.CanonicalizeArith | scripts/sync_check_constraints.py:980-1032 | the passes, at most 64, compute the specification on the stripped text |
| ArithText.MatchFound | scripts/sync_check_constraints.py:811-834 | for every text the parenthesis found matches: depth stays above that of the opening one in between |
| ArithText.MatchUnique | scripts/sync_check_constraints.py:811-834 | and whatever matches is what is found |
| ArithText.FindSpec | scripts/sync_check_constraints.py:990-1025 | the pair found is matched, lies outside literals, is no call or list, and passes the test |
| ArithText.FindComplete | scripts/sync_check_constraints.py:990-1025 | a matched grouping pair that passes the test is never overlooked: the pair found opens no later |
| ArithText.NestedOrDisjoint | scripts/sync_check_constraints.py:811-834 | matched pairs are nested or disjoint |
| ArithText.MatchesIntact | scripts/sync_check_constraints.py:1018-1024 | deleting a matched pair leaves every other match as it was, and makes none |
| ArithText.ArithKeeps | scripts/sync_check_constraints.py:980-1032 | for every text: literals and all other characters stay in order, two characters go per deletion, and either no pair is left to delete or exactly 64 went |
| ArithText.ArithKeepsBalance | scripts/sync_check_constraints.py:980-1032 | for every text: a balanced text stays balanced |
| ArithText.IdempotentExactly | scripts/sync_check_constraints.py:980-1032 | a second run changes nothing if and only if the result is trimmed and holds no deletable pair |
| ArithText.IdempotentBelowLimit | scripts/sync_check_constraints.py:980-1032 | idempotent whenever fewer than 64 pairs went, for texts without spaces inside parentheses |
| ArithScan.TopOfSpell | scripts/sync_check_constraints.py:837-895 | on a spelled expression the scan finds the weakest table operator of the tree |
| ArithScan.EndsInOp | scripts/sync_check_constraints.py:898-920 | after an operand and an operator the left neighbour is that operator if the table has it, else none |
| ArithScan.StartsWithOp | scripts/sync_check_constraints.py:923-940 | the same for the right neighbour |
| ArithScan.NameIsOperand | scripts/sync_check_constraints.py:885-891 | a name of small letters, digits and underscores is scanned as an operand if and only if it is no reserved word, so "order" and "android" do not stop the scan |
| ArithCorrect.ParenTest | scripts/sync_check_constraints.py:943-977 | a grouping pair in any place is accepted exactly by the precedence test on its tree and neighbours, whatever the white space |
| ArithCorrect.FindTree | scripts/sync_check_constraints.py:990-1025 | the scan finds the leftmost accepted pair of the tree |
| ArithCorrect.DeleteTree | scripts/sync_check_constraints.py:1018-1024 | deleting it leaves the spelling of the tree without it |
| ArithCorrect.ArithErases | scripts/sync_check_constraints.py:980-1032 | within 64 removals the output is the spelling of the erased tree; beyond, of a tree with the same operators and operands, partly erased |
| ArithMeaning.SameTree | scripts/sync_check_constraints.py:980-1032 | a text and a parse tree determine the grouping |
| ArithMeaning.MeaningKeptExactly | scripts/sync_check_constraints.py:943-1032 | within 64 removals the output can be read with the old parse tree if and only if every accepted pair fits between both its neighbours |
| ArithMeaning.ReadableExactly | scripts/sync_check_constraints.py:980-1032 | for any number of pairs the output can be read with the old parse tree if and only if the first 64 accepted pairs of the expression, from left to right, fit between their neighbours |
| ArithMeaning.DropsAre | scripts/sync_check_constraints.py:1009-1032 | n passes take away the first n accepted pairs, from left to right |
| ArithMeaning.SoundKeepsMeaning | scripts/sync_check_constraints.py:980-1032 | a sound expression with any number of pairs keeps its parse tree |
| ArithMeaning.OneDeletionExactly | scripts/sync_check_constraints.py:1018-1024 | one deletion keeps the parse tree if and only if the content of the deleted pair fits between the operators beside it |
| ArithMeaning.TableOrder | scripts/sync_check_constraints.py:788-793 | among its own operators the table orders as PostgreSQL does |
| ArithMeaning.TableMeaningKeptExactly | scripts/sync_check_constraints.py:943-1032 | for table operators the condition is that no accepted pair has a tighter operator on its right |
| ArithMeaning.TwoSidedSound | scripts/sync_check_constraints.py:943-977 | on expressions of the operators of the table, a rule that asks both neighbours keeps every parse tree |
| ArithMeaning.RulesAgreeExactly | scripts/sync_check_constraints.py:943-977 | the two rules erase the same pairs if and only if that condition holds |
| ArithMeaning.UnsqueezedKept | scripts/sync_check_constraints.py:943-1032 | an expression of table operators keeps its parse tree whenever no group stands between an operator on its left that is looser than its content and one on its right that is tighter; the condition is read off the expression by the table alone |
| ArithMeaning.RedundantGone | scripts/sync_check_constraints.py:943-1032 | and conversely the output keeps no pair whose content binds as tight as + and as both neighbours ask |
| ArithMeaning.PairsGone | scripts/sync_check_constraints.py:980-1032 | an expression with at most 64 accepted pairs is erased whole, and the output is two characters shorter for each pair, up to 64 of them |
| ArithMeaning.GroupKeptBeforeTimes | scripts/sync_check_constraints.py:972-974 | (a + b) * c is its own output, for all operands |
| ArithMeaning.GroupGoneAfterLe | scripts/sync_check_constraints.py:968-970 | y <= (a + b) becomes y <= a + b, for all operands |
| ArithMeaning.GroupLostBeforeTimes | scripts/sync_check_constraints.py:968-970 | x = (a + b) * c and x = a + b * c, different trees, get one text |
| ArithMeaning.GroupLostBeforePower | scripts/sync_check_constraints.py:788-793 | (a + b) ^ c and a + b ^ c, different trees, get one text |
| ArithMeaning.GroupLostAroundIs | scripts/sync_check_constraints.py:788-793 | a = (b is c) and a = b is c, different trees, get one text |
| ArithReading.OneReading | scripts/sync_check_constraints.py:980-1032 | a text has at most one parse tree: equal texts come from equal expressions |
| ArithReading.SoundReading | scripts/sync_check_constraints.py:980-1032 | the only reading of a sound expression's output has the original parse tree |
| ArithReading.EqualTextsEqualTrees | scripts/sync_check_constraints.py:980-1032 | sound expressions with one output, whatever their number of pairs, have one parse tree: no false equality |
| ArithReading.ErasedGrouped | scripts/sync_check_constraints.py:943-1032 | what is kept of a sound expression is exactly the grouping precedence asks for if and only if no pair that fits is refused |
| ArithReading.TextsAgreeExactly | scripts/sync_check_constraints.py:980-1032 | two such expressions leave one text if and only if they are one parse tree with the same spaces |
| ArithReading.RedundantPairKept | scripts/sync_check_constraints.py:968-977 | the redundant pair around a concatenation after = is kept, and the text is not that without it |
| Interval.AmountSame | scripts/sync_check_constraints.py:695-698 | amounts print alike if and only if they are equal |
| Interval.TokensAgreeExactly | scripts/sync_check_constraints.py:701-779 | for all literals: equal tokens if and only if equal seconds, equal counts of one unit, or the same unread text; never across these kinds |
| Interval.SpellingRead | scripts/sync_check_constraints.py:721-777 | every clock, ISO, unit and bare spelling is read as the seconds it means |
| Interval.SecondsExactly | scripts/sync_check_constraints.py:721-777 | a stripped lower-case text is read as a duration if and only if it is one of those spellings, whole |
| Interval.NamedExactly | scripts/sync_check_constraints.py:753-779 | it is read as a number of another unit if and only if it is a number and a lower-case word that names no fixed length; an unread text is kept as it is |
| Interval.UnitTable | scripts/sync_check_constraints.py:681-687 | the table of the source holds the names of weeks, days, hours, minutes and seconds with their lengths, and no others |
| Interval.SameDurationSameToken | scripts/sync_check_constraints.py:701-779 | spellings of fixed durations get one token if and only if their seconds are equal |
| Interval.SameLengthSameToken | scripts/sync_check_constraints.py:701-779 | the same with durations as real numbers built from hours, minutes, days and weeks |
| Interval.UnitMeans | scripts/sync_check_constraints.py:681-687 | a count of any unit has the token of a count of seconds if and only if that is the number times the length of the unit |
| Interval.MinutesMeetIso | scripts/sync_check_constraints.py:681-687 | for all digits n, n minutes under each name of the minute has the token of ptNm |
| Interval.DaysMeetIso | scripts/sync_check_constraints.py:681-687 | n days has the token of pNd |
| Interval.SecondsAreText | scripts/sync_check_constraints.py:695-698 | whole seconds without leading zeros are printed as they are written |
| Interval.FiveMinutes | scripts/sync_check_constraints.py:701-713 | 5 minutes, 00:05:00 and 300 seconds all give interval(300), as documented |
| Interval.CalendarExactly | scripts/sync_check_constraints.py:689-692 | whole numbers of units of no fixed length get one token if and only if the numbers are equal and the units are one; four names are the month and three the year; neither meets the other or a fixed length |
| Interval.FractionKeepsUnit | scripts/sync_check_constraints.py:765-771 | a fraction of such a unit keeps the word it is spelled with |
| Interval.MarginsAndCase | scripts/sync_check_constraints.py:720 | margins and the case of letters do not matter |
| Interval.BadClockKept | scripts/sync_check_constraints.py:722-733 | a two-field clock whose minutes have no digit or more than two is kept as text |
| Interval.TwoFieldsAreHours | scripts/sync_check_constraints.py:721-732 | a two-field clock on the hour has the token of that many hours |
| Interval.TwoFieldsExactly | scripts/sync_check_constraints.py:721-732 | a two-field clock has the token of so many seconds if and only if they are its hours and minutes |
| Interval.MinutesSecondsExactly | scripts/sync_check_constraints.py:721-732 | the documented minutes and seconds are met if and only if both fields are zero |
| Interval.YrIsYear | scripts/sync_check_constraints.py:689-692 | a whole number of yr, an unlisted unit, meets year |
| Inventory.PartitionChecks | scripts/sync_check_constraints.py:135-149 | the loop splits an inventory into managed rows and the rest |
| Inventory.ClassifyIs | scripts/sync_check_constraints.py:114-132 | managed are the names that begin with ck_, legacy those that begin with chk_, the rest neither |
| Inventory.ComputeDiff | scripts/sync_check_constraints.py:1175-1274 | the loops of diff build the six lists of its specification |
| Inventory.DiffIs | scripts/sync_check_constraints.py:1189-1234 | for each list, exactly which keys and texts are in it; managed is said as the prefix ck_ |
| Migration.BuildMigration | scripts/sync_check_constraints.py:1314-1426 | refuses exactly when a name to add or replace does not begin with ck_, is empty exactly without operations, else upgrade and downgrade are the operations and their inverses in opposite order |
| Migration.UpRuns | scripts/sync_check_constraints.py:1349-1405 | operations that fit a database run without a failing step |
| Migration.DownRuns | scripts/sync_check_constraints.py:1407-1413 | the downgrade then restores the database |
| Reconcile.Synchronize | scripts/sync_check_constraints.py:1715-1880 | which of the outcomes a run has, by exact conditions: it stops first if and only if some requested name belongs to no unmanaged constraint that only the database has, and tells exactly those names; then nothing to do, dry run, not accepted, or the migration of the plan |
| Reconcile.UnknownIs | scripts/sync_check_constraints.py:1724-1742 | a name is unknown if and only if it is requested and no key of that name is in the database, absent from the models and without the prefix ck_ |
| Reconcile.OnlyManaged | scripts/sync_check_constraints.py:1333-1347 | what diff hands over passes the guards of build_migration |
| Reconcile.DropsIs | scripts/sync_check_constraints.py:1744-1751 | a row is dropped exactly when pruning is on, the models lack it, and it is managed or its name was requested |
| Reconcile.PlanIs | scripts/sync_check_constraints.py:1189-1234 | exactly which operation, if any, each key gets; only managed keys are added or replaced |
| Reconcile.PlanReady | scripts/sync_check_constraints.py:1175-1274 | the plan fits the inspected database and touches each key once |
| Reconcile.UpgradeReachesTarget | scripts/sync_check_constraints.py:1356-1405 | the upgrade runs from the inspected database without failing and leaves under every key what an independent definition says |
| Reconcile.DowngradeRestores | scripts/sync_check_constraints.py:1407-1413 | upgrade then downgrade is the inspected database exactly |
| Reconcile.SecondRunIsClean | scripts/sync_check_constraints.py:1196-1216 | after the upgrade a second run has nothing to do, even when the server re-renders texts |
| Reconcile.RepeatedDropIsUnknown | scripts/sync_check_constraints.py:1724-1742 | repeating a command that dropped legacy rows stops: every requested name is unknown |
| Reconcile.FourCases | scripts/sync_check_constraints.py:1196-1212 | a managed model key is in exactly one of add, replace, representation-only, identical |
| Normalize.ReplacedExactly | scripts/sync_check_constraints.py:482-499 | boolean predicates are replaced if and only if their flattened syntax differs |
| Normalize.DifferenceIsReplaced | scripts/sync_check_constraints.py:482-499 | sound comparisons with different parse trees are always replaced |
| Mixed.Handed | scripts/sync_check_constraints.py:482-499 | what the arithmetic step leaves of a proper predicate is a clean spelling of the boolean layer with the same sense |
| Mixed.EqualMixedEqualSense | scripts/sync_check_constraints.py:482-499 | proper predicates that mix both layers and get one normal form have one parse tree, up to the nesting of runs |
| Normalize.MixedDifferenceIsReplaced | scripts/sync_check_constraints.py:482-499 | so a difference of parse trees between them is always replaced |
| Normalize.DifferenceHidden | scripts/sync_check_constraints.py:482-499 | the lost group hides a real difference from the comparison |
| LazyTables.CreateTablesLazy | scripts/lazy_table_creator.py:59-97 | the retry loop leaves the state after that many rounds; it sleeps once for each round but the last that made no table and left some, first for the given delay, then for half as much again up to ten seconds |
| LazyTables.VisitAll | scripts/lazy_table_creator.py:74-94 | one round; when it counts no creation the tables are unchanged |
| LazyTables.NothingTooEarly | scripts/lazy_table_creator.py:74-88 | after any number of rounds all that a table counted as created refers to exists |
| LazyTables.ClashBelieved | scripts/lazy_table_creator.py:82-88 | a name that meets an "already exists" error counts as created from then on, though its table never exists, and is not tried again |
| LazyTables.DepthReached | scripts/lazy_table_creator.py:64-94 | after k rounds every table whose references nest at most k deep exists |
| LazyTables.WorstOrderIsExact | scripts/lazy_table_creator.py:64-94 | visited before what they refer to, exactly the tables of depth at most k exist after k rounds |
| LazyTables.LeastFixedPoint | scripts/lazy_table_creator.py:59-94 | with as many rounds as missing tables the result is the least set closed under creation |
| LazyTables.OrderDoesNotMatter | scripts/lazy_table_creator.py:70-74 | the result does not depend on the order of visits |
| LazyTables.StuckForever | scripts/lazy_table_creator.py:94-97 | after a round that creates nothing no later round creates anything |
| LazyTables.StuckHasCycle | scripts/lazy_table_creator.py:94-97 | then the tables that are left refer to each other in a cycle, when every reference is to a known table and no name clashes |
| KycCache.IgnoredExactly | app/kyc_config_schema.py:306-328 | a stored value counts for nothing, the default being returned, if and only if it is missing or is a number or JSON text that cannot be parsed; other text is false for a truth value |
| KycCache.DecodeTyped | app/kyc_config_schema.py:298-332 | with typed defaults every setting has the type of its item, and the rows determine all settings |
| KycCache.SettingsAre | app/kyc_config_schema.py:306-328 | each setting by its kind, said of the stored text: true, 1, yes and on in any case of letters are true and all other text is false; numbers and JSON as they parse; text as it is; else the default |
| KycCache.TruthExamples | app/kyc_config_schema.py:313-316 | True and ON are read as true, false as false |
| KycCache.Cache.Get | app/kyc_config_schema.py:298-332 | the cached settings within 300 seconds, else the decode of the rows with exactly the schema's keys |
| KycCache.Cache.Clear | app/kyc_config_schema.py:284-286 | nothing is cached afterwards |
| KycCache.ReadIsRecent | app/kyc_config_schema.py:298-332 | in every history a read returns the decode of the rows at a time less than 300 seconds ago that no clear follows |
| KycCache.ReadSettles | app/kyc_config_schema.py:298-332 | once the table has been still that long, a read returns its present decode |
| KycCache.OutageOutlivesItself | app/kyc_config_schema.py:289-305 | after a failed load every read returns the defaults until 300 seconds pass or a clear |
| KycCache.ReadExactly | app/kyc_config_schema.py:289-332 | a read returns what the last load made of its rows: their decode if and only if it got through or they hold nothing but defaults, the present decode if and only if each setting is what the load saw |
| Startup.StartupSafe | app/__init__.py:1474-1544 | in every interleaving each worker is started at most once, one request at most is inside the lock, and a non-static request that left finds the flag set |
| Startup.StartedExactly | app/__init__.py:1481-1544 | once the flag is set and no body is running, every worker was started once if and only if no start raised; a start that raised is that of the first worker not started |
| Startup.SomeoneMoves | app/__init__.py:1474-1484 | while a request is under way some request can move, and one in the body can start its next worker |
| Startup.StaticPasses | app/__init__.py:1474-1477 | a static request never holds the lock and never runs the body |
| Startup.StaticStartsNothing | app/__init__.py:1474-1477 | a run of static requests starts nothing and leaves the flag unset |
| Startup.FailedStartIsFinal | app/__init__.py:1481-1544 | once the flag is set and no body is running, no worker is started any more |
| Startup.FirstStartRaises | app/__init__.py:1479-1513 | a run in which the first start raises, and a later request comes and goes with no worker started |
| Startup.MayLeaveEarly | app/__init__.py:1479-1484 | a request may leave before any worker was started |
| Classification.Session.CategoryCreate | app/admin/classification.py:111-175 | done if and only if permitted, the name has 1 to 50 characters, its code is free and the order fits; then one active row is added, else nothing changes |
| Classification.Session.CategoryEdit | app/admin/classification.py:178-269 | the field-by-field edit, commit and rollback are one step of the transition the lemmas are about |
| Classification.Session.CategoryDeactivate | app/admin/classification.py:272-318 | done if and only if there is no active type and no live organisation of the own code; only the flag of the one row changes, and the commit never fails |
| Classification.Session.CategoryActivate | app/admin/classification.py:321-352 | never fails on a category that is there, and changes only its flag |
| Classification.Session.TypeCreate | app/admin/classification.py:405-493 | done if and only if permitted, code and title fit, the code is free and an existing category is named; then one active row is added, else nothing changes |
| Classification.Session.TypeEdit | app/admin/classification.py:496-586 | the guarded field-by-field edit, commit and rollback are one step of the transition the lemmas are about |
| Classification.Session.TypeDeactivate | app/admin/classification.py:589-636 | done if and only if no live organisation has the type; only the flag of the one row changes, and the commit never fails |
| Classification.Session.TypeActivate | app/admin/classification.py:639-670 | never fails on a type that is there, and changes only its flag |
| Classification.Session.CheckCategory | app/admin/classification.py:673-714 | safe exactly when the deactivation would be carried out |
| Classification.Session.CheckType | app/admin/classification.py:717-757 | safe exactly when the deactivation would be carried out |
| Classification.WriteSafe | app/admin/classification.py:132-147 | for each handler: what it hands over keeps codes unique and references whole if and only if texts and numbers fit their columns, a type has a category, and no organisation carries a code that is given up |
| Classification.RunKeeps | app/admin/classification.py:132-147 | on a database that checks nothing, the tables stay consistent throughout a run if and only if every request meets that condition where it arrives |
| Classification.CommitSkips | app/admin/classification.py:132-175 | the database only skips the requests that do not |
| Classification.CategoryCreateDone | app/admin/classification.py:111-175 | when creation is done and the row it adds, said of the rows alone |
| Classification.CategoryEditDone | app/admin/classification.py:178-269 | when the edit is done, and the row after it, field by field: the new code and title, the old order unless a number was given, the flag of the form; no other row changes |
| Classification.CategoryDeactivateDone | app/admin/classification.py:272-318 | when deactivation is done, and the row after it |
| Classification.TypeCreateDone | app/admin/classification.py:405-493 | the same for the creation of a type |
| Classification.TypeEditDone | app/admin/classification.py:496-586 | the same for its edit: the guards as conditions on the rows |
| Classification.TypeEditRow | app/admin/classification.py:541-564 | the row of the type after the edit, field by field |
| Classification.TypeDeactivateDone | app/admin/classification.py:589-636 | the same for its deactivation |
| Classification.OthersDone | app/admin/classification.py:321-352 | without the role, or without such a row, nothing changes and the reply says so; an activation of a row that is there is done and changes its flag alone |
| Classification.CategoryEditFailsExactly | app/admin/classification.py:200-247 | exactly when the edit is refused or rolled back: its guards leave no reference for the database to refuse |
| Classification.TypeEditFailsExactly | app/admin/classification.py:529-564 | exactly when the edit is refused or rolled back: also for renaming a type that any organisation, deleted ones included, carries |
| Classification.TypeCreateFailsExactly | app/admin/classification.py:439-464 | exactly when creation is rolled back: also when the form names no category |
| Classification.AppliedCategory | app/admin/classification.py:541-564 | after an edit that was carried out the type is in the category that was checked if and only if the target is that new category, or none was asked for and the target moves it nowhere |
| Classification.NewCategoryNotApplied | app/admin/classification.py:541-564 | an edit that asks for a new category is carried out and leaves the type where it was |
| Classification.EditIgnoresDependencies | app/admin/classification.py:240-246 | after an edit that was carried out the category is inactive with active types if and only if it had some and the form does not say active |
| Classification.CategoryGuardPassedBy | app/admin/classification.py:240-246 | an edit that leaves a category inactive with an active type |
| Classification.EditIgnoresUsers | app/admin/classification.py:519-553 | after an edit that was carried out the type is inactive with live organisations if and only if it had some and the form does not say active |
| Classification.TypeGuardPassedBy | app/admin/classification.py:519-553 | a type that may not be deactivated is made inactive by an edit |
| Classification.OrganisationsOverlooked | app/admin/classification.py:284-289 | a category is deactivated over a live organisation of one of its types if and only if it has no active type, no live organisation of its own code, and an inactive type with a live organisation |
| Classification.OrganisationLeftBehind | app/admin/classification.py:284-289 | after that edit the category, refused before, is deactivated over the organisation |

## Left out

- The regular-expression rewriting in `normalize_sql` before `_canonicalize_arith` (casts, ANY/ARRAY, BETWEEN, quoting): a parameter of `Normalize`.
- Normalize.MixedDifferenceIsReplaced: literals with unbalanced parentheses are excluded for predicates of both layers; what they do to groups is in `BoolGroups` and `BoolTight`.
- Unary minus, which the scanners read as the binary operator; upper-case text, which earlier steps lower.
- Characters outside ASCII in `isalnum`, `isspace`, `lower` and the digit classes.
- ArithCorrect.ArithErases: beyond 64 removals it says only that the parse tree without grouping stays, because the passes stop there.
- ArithMeaning.MeaningKeptExactly: beyond 64 removals a pair that does not fit may not be reached; ReadableExactly has the condition for any number.
- BoolCorrect.Canonical: asks for a clean spelling, which is enough but not necessary; the exact conditions are proved for one group in each place, not for several unrecognised groups in one predicate.
- ArithReading.TextsAgreeExactly: for at most 64 accepted pairs, because the passes stop there.
- ArithText.IdempotentBelowLimit: spaces just inside parentheses are excluded, because earlier steps remove them and stripping would otherwise shorten the text; IdempotentExactly has no such condition.
- Binary floating point in `_interval_token`: amounts are exact decimals, and the text of very large or small floats is not modelled.
- Interval.SameDurationSameToken: the source multiplies floats, so some fractional spellings of one duration differ there that agree here: 0.57 minutes is 34.199999999999996 seconds and not 34.2.
- `_constraint_columns` and the conflict report, which are only printed; reports, argument parsing, Alembic heads, file writing and the clock in revision ids.
- Failures of a create step for reasons other than its name, such as rows that violate the constraint.
- Unrelated requests changing the database between the inspection and the upgrade.
- The column lengths and types of the inspected tables other than the catalogue's.
- LazyTables.CreateTablesLazy: the error texts and the final check of named critical tables are not modelled; an error that says "already exists" is the set `clash`.
- `get_tier_requirements` and the other readers of the settings, which only look keys up; callers that change the dictionary they are given.
- KycCache.Cache.Get: threads that read at the same time are not modelled.
- What the workers of the start-up hook do, and the separate lock and flag of each server process.
- Classification.Session.CheckCategory: the permission test, the lists of names in the reply and the audit log are not modelled.
- Soft deletion of categories and types, which no handler of the module sets.
