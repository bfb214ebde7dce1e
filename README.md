# Bill Splitter — a verified model of the split calculation

The Bill Splitter is a single-page web app. A user enters a bill amount
(before tax and service) and a tax and a service charge. Each charge is
either a percentage of the bill or a fixed amount. The user then builds a
roster of participants, each with the items they ordered, and clicks
"Calculate split". The page shows one row per person:

- the person's item subtotal;
- their share of the tax and of the service;
- the total they owe.

When no item has a price, the page falls back to an equal split of the
grand total.

This project models that core in Dafny:

- `text.dfy` (`Text`) covers Python's `str.strip()`, which the forms apply
  to names.
- `sums.dfy` (`Sums`) covers Python's `sum` as a left fold over exact
  reals, with the summation laws the conservation results rest on.
- `participants.dfy` (`Participants`) is the roster kept between clicks.
  It is a class whose methods are the four edits the page makes: add a
  participant, add an item, remove a participant, clear a participant's
  items.
- `charges.dfy` (`Charges`) turns a percentage or fixed charge into an
  amount. It also defines the grand total.
- `subtotals.dfy` (`Subtotals`) builds the `subtotals` dictionary. The
  dictionary is insertion-ordered and keyed by name. Assigning to a name
  already present replaces its value in place, so later participants with
  the same name overwrite earlier ones and keep the first position. The
  dictionary is a sequence of entries, built by a loop (`AggregateSubtotals`)
  that is proved equal to a fold (`Aggregate`).
- `allocation.dfy` (`Allocation`) models the button handler. It has a
  specification function `Split` and the imperative handler
  `CalculateSplit`, whose three loops are proved to compute `Split`.
  Lemmas cover the guard, the choice between equal and proportional split,
  the conservation of tax, service and totals, and worked examples.

The model follows the code where it surprises:

- The equal split's "Subtotal" column already holds the whole share, tax
  and service included. Adding the row's tax and service shares to it
  double-counts them (`EqualSplitCountsChargesTwice`).
- Participants with the same name collapse into one dictionary entry that
  holds the last one's subtotal. The earlier participant's items drop out
  of the items total. This can even trigger the equal-split fallback
  although an item was priced (`ScenarioDuplicateName`).
- A lone participant with items owes their items plus all of the tax and
  service. That equals the grand total only when the items add up to the
  bill amount (`SingleParticipantItemized`).

## Model

| member | source | states |
|---|---|---|
| Text.TrimLeft | app.py:85 | the leading part of `strip()`: the result is a suffix of the input; everything dropped is whitespace; the result does not start with whitespace |
| Text.TrimRight | app.py:85 | the trailing part of `strip()`: the result is a prefix; everything dropped is whitespace; the result does not end with whitespace |
| Text.Strip | app.py:85-86 | `name.strip()` is empty exactly when the name is all whitespace; otherwise it neither starts nor ends with whitespace and is no longer than the input |
| Text.StripIsCore | app.py:85-86 | a slice with only whitespace around it and non-whitespace at both ends is exactly what `strip()` returns |
| Text.TrimLeftExact | app.py:85 | the leading whitespace up to the first non-whitespace character is exactly what is dropped |
| Text.TrimRightExact | app.py:85 | the trailing whitespace after the last non-whitespace character is exactly what is dropped |
| Text.StripIdempotent | app.py:86 | a stored, stripped name is its own `strip()` |
| Sums.SumNonNegative | app.py:149 | non-negative prices have a non-negative sum that bounds each of them |
| Sums.SumZero | app.py:152-160 | non-negative amounts add up to zero exactly when each of them is zero |
| Sums.SumConstant | app.py:163-173 | `n` equal amounts `c` add up to `n * c` |
| Sums.FractionsAddUp | app.py:177 | non-negative amounts divided by their non-zero sum are fractions in [0, 1] that add up to 1 |
| Sums.ShareOut | app.py:178-179 | handing out a charge in fractions that add up to 1 hands out exactly the charge |
| Sums.SumOfThree | app.py:180 | amounts that are a base plus two shares add up to the base's sum plus both shares' sums |
| Charges.Resolve | app.py:155-156 | a charge entered through the form (minimum 0) is never negative on a non-negative bill |
| Charges.FixedIgnoresBill | app.py:155-156 | a fixed charge is used as entered, whatever the bill |
| Charges.PercentOfBill | app.py:155-156 | a percentage charge is `p` hundredths of the bill: linear in the bill, the whole bill at 100 %, nothing at 0 % |
| Participants.AppendKeepsWellFormed | app.py:117-119 | appending a stripped, non-blank item with a non-negative price keeps a participant well formed |
| Participants.AppendKeepsAllWellFormed | app.py:84-86 | appending a well-formed participant keeps the roster well formed |
| Participants.UpdateKeepsAllWellFormed | app.py:117-133 | replacing one participant by a well-formed one keeps the roster well formed |
| Participants.Roster.constructor | app.py:74-75 | the session starts with an empty roster |
| Participants.Roster.AddParticipant | app.py:84-88 | a participant is added exactly when the name is not blank; the stripped name is appended with no items; otherwise the roster is unchanged |
| Participants.Roster.AddItem | app.py:117-122 | an item is added exactly when its name is not blank; `[strip(name), price]` is appended to that participant's items; every other participant, and each name, is unchanged |
| Participants.Roster.Remove | app.py:127-129 | `pop(idx)` deletes exactly entry `idx`; earlier entries keep their places and later ones move up by one |
| Participants.Roster.ClearItems | app.py:131-133 | the participant's items become empty and nothing else changes |
| Subtotals.ItemSubtotalAppend | app.py:149 | adding an item adds its price to its owner's subtotal |
| Subtotals.ItemSubtotalNonNegative | app.py:149 | prices from the form give a non-negative subtotal |
| Subtotals.LookupDistinct | app.py:150 | in a dictionary without repeated keys, each entry is what a lookup of its name finds |
| Subtotals.Put | app.py:150 | `subtotals[name] = v` replaces the value of a name already present at its position, or appends a new name at the end |
| Subtotals.PutKeepsNames | app.py:150 | overwriting an existing name keeps the keys and their order |
| Subtotals.PutLookup | app.py:150 | afterwards `name` maps to `v` and every other name maps to what it did before |
| Subtotals.AggregateSubtotals | app.py:147-150 | the loop builds the dictionary of the fold over the roster, with each subtotal `sum(prices) if items else 0.0` |
| Subtotals.AggregateKeys | app.py:147-150 | the dictionary has no repeated key, and its keys are exactly the roster's names |
| Subtotals.AggregateLastWins | app.py:148-150 | the value stored under a name is the subtotal of the last participant with that name |
| Subtotals.FirstIndex | app.py:148 | the position of a name's first occurrence: it holds the name, and no earlier position does |
| Subtotals.FirstIndexExtend | app.py:148 | appending to a list of names does not move the first occurrence of a name already present |
| Subtotals.FirstIndexNew | app.py:148 | a newly appended name first occurs at the end |
| Subtotals.AggregateFirstSeenOrder | app.py:147-150 | the keys are in the order in which their names first appear in the roster |
| Subtotals.AggregateSize | app.py:147-150 | the dictionary is never longer than the roster, and equally long exactly when the roster's names are distinct |
| Subtotals.AggregateDistinctNames | app.py:147-150 | with distinct names, entry `i` is participant `i`'s own name and subtotal |
| Subtotals.OwnEntriesPrefix | app.py:148-150 | the participants' own entries for a roster are those of its prefix plus the last participant's entry |
| Subtotals.TotalItemsDistinct | app.py:152 | with distinct names, the items total is the sum of every participant's subtotal |
| Subtotals.AggregateNonNegative | app.py:149-150 | with prices from the form, every stored subtotal is non-negative |
| Subtotals.TotalItemsZero | app.py:152-160 | with such prices, the items total is non-negative, and it is zero exactly when every stored subtotal is zero |
| Subtotals.NoItemsTotalZero | app.py:149-152 | when nobody has entered an item, the items total is zero |
| Subtotals.LastWithName | app.py:148-150 | the index of the last participant with a given name: it has that name and no later one does |
| Allocation.BuildEqualRows | app.py:163-173 | the fallback loop produces one equal-split row per roster entry, in roster order |
| Allocation.BuildItemizedRows | app.py:175-187 | the proportional loop produces one row per dictionary entry, in dictionary order |
| Allocation.CalculateSplit | app.py:140-187 | the handler computes exactly `Split`: the guard, the subtotal loop, both charges, then one of the two row-building loops |
| Allocation.SplitGuard | app.py:141-145 | nothing is computed exactly when the bill is not positive or the roster is empty; the bill check comes first |
| Allocation.SplitTotals | app.py:155-158 | the charges are resolved against the bill, and the grand total is the bill plus both charges |
| Allocation.EqualSplitWhen | app.py:160 | with prices from the form, the equal split is taken exactly when every stored subtotal is zero, and always when nobody has items |
| Allocation.EqualRowsAddUp | app.py:163-173 | the equal dues add up to the grand total, and the tax and service shares to the resolved charges |
| Allocation.SharesAddUp | app.py:169-172 | `n` equal shares of an amount add back up to the amount |
| Allocation.EqualSplitRows | app.py:160-173 | the equal split has one row per roster entry (duplicates included) in roster order; each row's subtotal and total due are the grand total divided by the roster size, and its tax and service shares are the charges divided by it; the columns add up to the grand total and the charges |
| Allocation.EqualSplitCountsChargesTwice | app.py:169-172 | in an equal-split row, subtotal plus both shares equals the total due exactly when tax plus service is zero |
| Allocation.ItemizedRowsByName | app.py:174-187 | the proportional split has one row per distinct name, in dictionary order; each row carries its entry's subtotal and owes it plus both shares; person names do not repeat and are exactly the roster's names |
| Allocation.ItemizedRowsNames | app.py:176-180 | the proportional rows of the aggregated dictionary carry its names and subtotals, which are distinct and are exactly the roster's names |
| Allocation.ShareRatiosAddUp | app.py:177 | with non-negative subtotals, every share ratio lies in [0, 1] and the ratios add up to 1 |
| Allocation.ItemizedRowsAddUp | app.py:176-180 | the subtotal column adds up to the items total, the tax shares to the tax, the service shares to the service, and the dues to all three |
| Allocation.ItemizedChargesAddUp | app.py:177-179 | the tax shares add up to the tax and the service shares to the service |
| Allocation.ItemizedDuesAddUp | app.py:180 | the dues add up to the items total plus the sums of the two share columns |
| Allocation.ItemizedColumns | app.py:177-180 | column by column, a row is the entry's subtotal, ratio times tax, ratio times service, and their sum |
| Allocation.ItemizedConservation | app.py:174-187 | with prices from the form, the proportional split keeps the ratios in [0, 1] adding up to 1, and hands out exactly the tax, exactly the service, and in all the items total plus both charges |
| Participants.FormPricesNonNegative | app.py:114-119 | every price in a roster the forms built is non-negative, the premise of the conservation lemmas |
| Allocation.SplitConservesCharges | app.py:143-187 | for any roster the forms can build, both splits hand out exactly the tax and the service; the dues add up to the grand total (equal split) or to the items total plus both charges (itemized split) |
| Allocation.CalculateRosterSplit | app.py:140-187 | the handler run on the page's roster computes `Split` of its participants and hands out exactly the tax and the service |
| Allocation.ItemizedZeroSubtotal | app.py:177-180 | a name whose stored subtotal is zero owes nothing in the proportional split |
| Allocation.ZeroSubtotalRow | app.py:177-180 | a zero subtotal gives a zero ratio, so zero shares and zero total due |
| Allocation.SingleParticipantItemized | app.py:174-180 | a lone participant with items gets all of the tax and service, owes the grand total minus the bill plus their items, and owes the grand total exactly when their items equal the bill |
| Allocation.SingleItemizedRow | app.py:177-180 | a lone entry's ratio is 1, so its row carries the whole tax and service |
| Allocation.ScenarioProportional | app.py:155-187 | bill 100, tax 10 %, service 12 %, Alice 60 and Bob 40: rows 60/6/7.2/73.2 and 40/4/4.8/48.8; grand total 122 |
| Allocation.ScenarioProportionalSubtotals | app.py:147-152 | in that case the dictionary is Alice 60, Bob 40, and the items total is 100 |
| Allocation.ScenarioProportionalRows | app.py:176-180 | in that case the proportional rows are the ones above |
| Allocation.ScenarioEqualSplit | app.py:155-173 | bill 50, fixed tax 5, fixed service 0, two participants without items: 27.50 each, tax share 2.50 |
| Allocation.ScenarioDuplicateName | app.py:147-173 | two participants named Alice, the first with a 60 pizza: the dictionary keeps only the second (0.0), so the page splits 100 equally between both entries |

## Left out

- The page itself is not modelled: Streamlit layout and theme, the
  warnings, the results table, the grand-total line, the CSV download and
  the copy-friendly text (app.py:189-203). They display values this model
  computes, so the `Breakdown` datatype stands in for them.
- `st.experimental_rerun()` and the unused `items_edit_index` bookkeeping
  (app.py:97-100) do not change the roster and are left out.
- `round(x, 2)` on every displayed column is left out. Rows carry the exact
  values before rounding, and floating-point arithmetic is modelled as
  exact real arithmetic. The conservation laws hold for these exact values;
  they are not claimed for the rounded display.
- Charges.Resolve: the `else 0.0` fallback for a charge with neither a
  percentage nor a fixed amount is not modelled. The radio button always
  sets exactly one of them (app.py:51-65), so a `Charge` is always one of
  the two modes.
- Participants.Roster.AddItem: requires `price >= 0`, which the price
  field's minimum of 0 guarantees (app.py:114). The same minimum appears as
  the `PricesNonNegative` hypothesis of the conservation lemmas.
- Participants.Roster: participants are values in a sequence. The page
  mutates the dictionary it is iterating over, but no other reference to a
  participant is observable, so aliasing is not modelled.
- Text.IsSpace: Python's whitespace set is written out as a fixed list of
  characters. Strings are sequences of characters, with no encoding or
  normalisation.
