# Voice billing assistant: the transcript parser and the list screens

This project models the core of a React Native billing app for small
shops. A shopkeeper dictates or types items and prices in Hindi or English.
`parseItemsAndPrices` in app/billing.js turns each utterance into `{ item, price }`
rows, which become rows of the bill. It works in stages:

- it splits the text into lines;
- it merges a price spoken after a pause into the line before it;
- it drops repeated lines;
- it finds each line's price token, scanning from the end. A token can be
  a spoken price word (looked up exactly or by edit distance), Devanagari
  digits, or an ASCII number with a currency word attached;
- it builds the item name from the tokens before that price token.

The project also models:

- the bill's row updates on the billing screen: append, Undo, Delete, and
  the Modify price field;
- the shopping list of app/CreateListScreen.js;
- the search and delete of app/SavedBillsScreen.js.

Modules, one per file:

- `Strings`: the string built-ins the source relies on (`trim`, `split`,
  `join`, ASCII `toLowerCase`, `includes`, regular-expression replacement of
  fixed alternatives) as functions, with their lemmas.
- `Levenshtein`: the dynamic-programming table of `levenshtein`, filled by
  a method over an `array2`, and proved equal to the recursive distance.
- `HindiNumbers`: the price-word dictionary as an ordered sequence,
  `fuzzyMatchHindiWord` as a loop proved against a function, and
  `hindiWordToNumber`.
- `Parser`: every stage as a function, and the source's loops as methods
  proved to compute them.
- `ParserProperties`: what each stage, and the whole parser, promises.
- `Lists`: `filter` by position, `splice(i, 1)` and `findIndex` as
  JavaScript defines them.
- `BillList`, `ShoppingList`, `SavedBills`: the screens' state as classes
  whose methods replace their fields the way the source's state setters do.

Where the written description of the system and the code disagree, the
model follows the code:

- The parser recognises no "new bill" or "undo" command. No branch of it
  sets `command`, so the command branches of `processBillingCommand` are
  never taken.
- Lines are split on line breaks only, not on every run of whitespace.
- A line counts as price-only by the code's anchored regular expression,
  or by being exactly a price word.
- A previous line "already has a price" when some digit in it is followed
  only by an optional fraction and an optional currency word, or when it
  contains a price word anywhere.
- Repeated lines are dropped wherever they occur, not only when adjacent.
- The fuzzy matcher first returns the earliest key that occurs inside the
  token. It looks at edit distance only when no key occurs there.

## Model

| member | source | states |
|---|---|---|
| Levenshtein.ComputeDistance | app/billing.js:41-52 | the table method returns the edit distance `Distance(a, b)` (unit cost insert, delete, substitute) |
| Levenshtein.FillRow | app/billing.js:45-50 | one pass of the inner loop makes row `i` hold the distances of the prefixes from row `i - 1`, and leaves every other row as it was |
| Levenshtein.DistanceToEmpty | app/billing.js:43-44 | against the empty string the distance is the other string's length, both ways round |
| Levenshtein.DistSelf | app/billing.js:41-52 | a string is at distance 0 from itself |
| Levenshtein.DistanceZeroIff | app/billing.js:41-52 | distance 0 holds exactly for equal strings |
| Levenshtein.DistSymmetric | app/billing.js:41-52 | the distance does not depend on the order of its arguments |
| Levenshtein.DistUpperBound | app/billing.js:41-52 | the distance is at most the longer length |
| Levenshtein.DistLowerBound | app/billing.js:41-52 | the distance is at least the difference of the lengths |
| Levenshtein.DistDisjoint | app/billing.js:41-52 | strings with no character in common are at the longer length's distance |
| HindiNumbers.Lookup | app/billing.js:14-20 | a lookup finds a value exactly for the dictionary's keys |
| HindiNumbers.DictKeysWellFormed | app/billing.js:14-20 | every key has four or more characters, starts with `d`, `ड` or `ढ`, and contains no digit of either script |
| HindiNumbers.DictValuesByShape | app/billing.js:14-20 | each listed value follows from its key's first two characters (250 for `ढ`, `डा`, `dh`; 150 otherwise), so no key could be listed with two values |
| HindiNumbers.LookupOfKey | app/billing.js:14-20 | looking up any listed key gives the value listed with it |
| HindiNumbers.FuzzyFromMeaning | app/billing.js:25-37 | from a state satisfying the loop's invariant, the rest of the loop returns the first contained key, or else the earliest nearest key within the threshold, or nothing |
| HindiNumbers.FuzzyMatchMeaning | app/billing.js:23-38 | if some key occurs in the token, the match is the first such key in declaration order; otherwise it is a key at lower-cased distance at most 2 with no key closer and every earlier key farther, and there is no match exactly when every key is farther than 2 |
| HindiNumbers.KeyDistance | app/billing.js:30 | the distance of the lower-cased token and key, computed by the table method |
| HindiNumbers.FuzzyMatchHindiWord | app/billing.js:23-38 | the loop with early return and best-so-far update returns the key `FuzzyMatch` names |
| HindiNumbers.NoFuzzyMatchWithoutKeyChars | app/billing.js:23-38 | a token sharing no character with the keys (for instance a numeral) is matched by no key |
| HindiNumbers.NumeralIsNotKey | app/billing.js:56-58 | Devanagari digits never hit the dictionary first |
| HindiNumbers.DevanagariValueOfToDevanagari | app/billing.js:57-59 | reading Devanagari digits positionally inverts writing a number in them |
| HindiNumbers.HindiWordToNumber | app/billing.js:54-62 | a number comes out exactly when the trimmed word is a price word or made only of Devanagari digits; blank input gives 0, the value of `Number('')` |
| HindiNumbers.HindiWordToNumberRoundTrip | app/billing.js:54-62 | `hindiWordToNumber` of a number written in Devanagari digits is that number |
| Parser.MergeLines | app/billing.js:67-90 | the push / `+=` loop computes `Merged(lines)`, the left fold of the merge step |
| Parser.HindiWordToNumberOfNumeral | app/billing.js:123-126 | on a Devanagari numeral token `hindiWordToNumber` gives its positional value |
| Parser.FindPrice | app/billing.js:107-137 | the backward scan with `break` returns `PriceScan(tokens)` |
| Parser.FindQuantity | app/billing.js:139-160 | the quantity loop answers whether the first token is a quantity |
| Parser.ParseMergedLine | app/billing.js:95-215 | the loop body returns the row `ParseLine` gives, or none where the source skips or does not push |
| Parser.ParseMergedLines | app/billing.js:94-217 | the loop over merged lines returns their rows in order |
| Parser.ParseItemsAndPrices | app/billing.js:12-218 | the whole parser computes `Parse(text)`: split, merge, drop repeats, rows |
| ParserProperties.InputLinesShape | app/billing.js:65 | every input line is non-empty, trimmed and free of line breaks |
| ParserProperties.InputLinesOfBlank | app/billing.js:65 | blank text has no lines |
| ParserProperties.InputLinesOfOneLine | app/billing.js:65 | text without a line break is its trimmed self, or nothing when blank |
| ParserProperties.InputLinesConcat | app/billing.js:65 | the lines of `a + "\n" + b` are the lines of `a` then those of `b`, order kept |
| ParserProperties.InputLinesOfTwo | app/billing.js:65 | two clean lines joined by a line break come back as those two lines |
| ParserProperties.MergedSize | app/billing.js:67-90 | merging never lengthens the list and keeps a non-empty list non-empty |
| ParserProperties.MergeStepKeepsText | app/billing.js:75-89 | one merge step reads, joined by spaces, like appending the line |
| ParserProperties.MergedKeepsText | app/billing.js:67-90 | merging only turns line breaks into single spaces: joined by spaces, the text is unchanged |
| ParserProperties.MergedWithoutPriceOnly | app/billing.js:71-89 | without price-only lines every line is pushed unchanged |
| ParserProperties.MergedLinesClean | app/billing.js:83 | merged lines stay non-empty, trimmed and free of line breaks |
| ParserProperties.DedupMembers | app/billing.js:92 | the kept lines are exactly the distinct non-empty lines, each once, and never more than before |
| ParserProperties.DedupOrder | app/billing.js:92 | kept lines appear in the order of their first occurrence |
| ParserProperties.DedupOfDistinct | app/billing.js:92 | distinct non-empty lines are all kept, unchanged |
| ParserProperties.DedupIdempotent | app/billing.js:92 | dropping repeats twice is dropping them once |
| ParserProperties.NumeralValueIsReadAmount | app/billing.js:131-133 | `Number` of a numeral has digit-only fraction without trailing zero |
| ParserProperties.RenderAmountRoundTrip | app/billing.js:197 | writing a read amount out and reading it back as `Number` gives the amount |
| ParserProperties.CurrencyListFacts | app/billing.js:130 | no stripped currency alternative starts with a digit and no currency word holds a digit |
| ParserProperties.DigitTokenIsNotKey | app/billing.js:14-20 | a token holding a digit of either script is no price word |
| ParserProperties.DigitTokenIsNotCurrency | app/billing.js:184 | a token holding a digit is no currency word, in any case |
| ParserProperties.NoWordPrice | app/billing.js:111-115 | a token sharing no character with the keys has no word price, exact or fuzzy |
| ParserProperties.PriceWordPrice | app/billing.js:111-121 | a price word is priced at its listed value |
| ParserProperties.AsciiNumberPrice | app/billing.js:129-135 | a token of ASCII digits is priced at its decimal value |
| ParserProperties.DevanagariNumberPrice | app/billing.js:122-127 | a token of Devanagari digits is priced at its positional value |
| ParserProperties.NumberPrice | app/billing.js:107-137 | a whole number written in either script is priced at that number |
| ParserProperties.LastPricedFromMeaning | app/billing.js:108-137 | the backward scan finds nothing exactly when no token is priced, and otherwise a priced token with no priced token after it |
| ParserProperties.PriceScanMeaning | app/billing.js:107-137 | the price token is the last token that reads as a price; there is none exactly when no token does |
| ParserProperties.TokenPriceIsReadAmount | app/billing.js:107-137 | every price a token reads as is a well-formed amount |
| ParserProperties.PriceScanIsReadAmount | app/billing.js:107-137 | the scanned price is a well-formed amount |
| ParserProperties.PriceTextMeaning | app/billing.js:195-201 | the price text is `₹` and a numeral reading back to the price token's amount, or `₹0` |
| ParserProperties.QuantityTokenIsKept | app/billing.js:139-186 | a quantity token is neither a currency word nor a price word, so the item keeps it |
| ParserProperties.KeepItemWordsAreWords | app/billing.js:180-186 | the kept tokens are words taken from the item tokens, none a currency or price word |
| ParserProperties.RawItemWords | app/billing.js:180-188 | the item's words are exactly the kept tokens before the price token, in order |
| ParserProperties.QuantityPrefixNeverApplies | app/billing.js:190-193 | a non-empty item already starts with the leading quantity, so the prefix rule changes nothing |
| ParserProperties.ItemOfLine | app/billing.js:163-193 | a line's item is its kept words before the price token, joined by single spaces |
| ParserProperties.RowFromMeaning | app/billing.js:203-215 | a row is skipped exactly for a bare price, and otherwise holds the cleaned item and the price |
| ParserProperties.ParseLineMeaning | app/billing.js:95-215 | a line yields no row exactly when its item is empty and the price token is its first or last token; otherwise the row is the cleaned item and the price text |
| ParserProperties.ParseLinePrice | app/billing.js:195-215 | every row's price is `₹` followed by a numeral |
| ParserProperties.LonePriceTokenDropped | app/billing.js:203-210 | a line that is a single priced token yields no row |
| ParserProperties.UnpricedLineCostsNothing | app/billing.js:199-215 | a line without any price token yields a row priced `₹0` |
| ParserProperties.ParseLinesShape | app/billing.js:94-217 | at most one row per merged line, each priced with `₹` and a numeral |
| ParserProperties.RowsConcat | app/billing.js:94-217 | the rows of consecutive lines are the rows of each, in order |
| ParserProperties.ParseShape | app/billing.js:12-218 | an utterance never yields more rows than input lines, and every row has a non-empty `₹` price |
| ParserProperties.ParseOfBlank | app/billing.js:65 | empty or whitespace-only input returns no rows |
| ParserProperties.ParseOfCleanLine | app/billing.js:65-92 | one clean line reaches the row stage unchanged |
| ParserProperties.ParseOfDroppedLine | app/billing.js:203-210 | a clean line that yields no row makes an utterance with no rows |
| ParserProperties.ParseOfLoneNumber | app/billing.js:203-210 | a number said on its own, such as `100`, gives no rows |
| ParserProperties.PauseSplitPriceIsRejoined | app/billing.js:75-83 | a price-only line after a line without a price parses as if said on that line |
| ParserProperties.PricedLineKeepsNextLine | app/billing.js:75-86 | after a line that already has a price, a price-only line stays its own line |
| Lists.FindIndexMeaning | app/SavedBillsScreen.js:134-138 | `findIndex` by identity finds exactly the list's elements, at their first position, and -1 otherwise |
| Lists.WithoutMeaning | app/billing.js:636 | filtering out position `i` removes exactly that element, and changes nothing when `i` is out of range |
| Lists.SplicedMeaning | app/SavedBillsScreen.js:68-69 | `splice(index, 1)` removes the element at `index`, counting from the end when negative; an index before the start removes the first element, and one past the end removes nothing |
| BillList.DigitsAndDots | app/billing.js:646 | the prefill holds only ASCII digits and dots and is no longer than the price |
| BillList.Bill.ProcessBillingCommand | app/billing.js:458-470 | the parsed rows are appended after the existing rows, in order |
| BillList.Bill.Undo | app/billing.js:586 | exactly the last row is removed; an empty bill stays empty |
| BillList.UndoRemovesLast | app/billing.js:465 | `slice(0, -1)` with the last row put back gives the bill again |
| BillList.Bill.DeleteRow | app/billing.js:634-638 | only row `index` is removed, the rest kept in order |
| BillList.Bill.StartModify | app/billing.js:644-647 | the row is being edited and the field holds the digits and dots of its price |
| BillList.Bill.SetEditPrice | app/billing.js:620 | typing sets the field and nothing else |
| BillList.Bill.CancelModify | app/billing.js:622 | leaving the field ends the edit, rows unchanged |
| BillList.Bill.CommitModify | app/billing.js:623-628 | the edited row gets the typed price followed by ` rs`, its item and every other row stay |
| BillList.DigitsAndDotsKeeps | app/billing.js:646 | the prefill keeps every digit and dot, as many of each, and nothing else |
| BillList.DigitsAndDotsOfDigits | app/billing.js:646 | text of only digits and dots is its own prefill |
| BillList.DigitsAndDotsIdempotent | app/billing.js:646 | taking the prefill twice changes nothing |
| BillList.DigitsAndDotsConcat | app/billing.js:646 | the prefill of a concatenation is the concatenation of the prefills |
| BillList.PrefillOfPriceText | app/billing.js:646 | a price the parser wrote prefills exactly the number after `₹` |
| BillList.ModifyRoundTrip | app/billing.js:624-646 | committing digits and dots and pressing Modify again gives the typed text back |
| ShoppingList.ItemFromInput | app/CreateListScreen.js:69-70 | an item is made exactly from non-blank input, and is that input trimmed, non-empty |
| ShoppingList.CreateList.SetInput | app/CreateListScreen.js:95 | typing, or a speech result, sets the input box and leaves the list as it was |
| ShoppingList.CreateList.AddItem | app/CreateListScreen.js:68-73 | non-blank input is appended trimmed and the box cleared; blank input changes nothing; proper entries stay proper |
| ShoppingList.CreateList.DeleteItem | app/CreateListScreen.js:75-77 | only position `index` is removed, order kept; out of range nothing changes |
| ShoppingList.CreateList.ClearList | app/CreateListScreen.js:79 | the list is empty afterwards, the input kept |
| ShoppingList.CreateList.EditItem | app/CreateListScreen.js:81-85 | position `index` becomes the new value; the length and every other position stay |
| ShoppingList.DeleteKeepsOthers | app/CreateListScreen.js:75-77 | after a delete, entries before the index stay and later ones move up by one |
| ShoppingList.DeleteKeepsListItems | app/CreateListScreen.js:70-77 | deleting keeps every entry non-empty and trimmed |
| SavedBills.Filtered | app/SavedBillsScreen.js:96-100 | the filtered list is never longer than the saved list |
| SavedBills.FilteredMembers | app/SavedBillsScreen.js:97-100 | a bill is shown exactly when it is saved, has a non-empty name, and its lower-cased name contains the lower-cased search |
| SavedBills.EmptySearchShowsNamed | app/SavedBillsScreen.js:99 | with an empty search every bill with a non-empty name is shown, and no other |
| SavedBills.UnnamedNeverShown | app/SavedBillsScreen.js:98 | a bill without a name is never shown |
| SavedBills.SearchIgnoresCase | app/SavedBillsScreen.js:99 | searches equal up to ASCII case show the same bills |
| SavedBills.FilteredIsSubsequence | app/SavedBillsScreen.js:96-100 | before the sort, the shown bills are saved bills in their saved order |
| SavedBills.FilteredNoDuplicates | app/SavedBillsScreen.js:96-100 | distinct saved bills are shown at most once each |
| SavedBills.ShownBillIsFound | app/SavedBillsScreen.js:134-138 | a shown bill's `findIndex` is a valid position holding that very bill |
| SavedBills.RemovedOnce | app/SavedBillsScreen.js:67-71 | removing a position from distinct bills removes that bill and keeps every other |
| SavedBills.SavedBillsScreen.SetSearch | app/SavedBillsScreen.js:121 | typing sets the search and keeps the bills |
| SavedBills.SavedBillsScreen.DeleteSavedList | app/SavedBillsScreen.js:67-71 | the list becomes the spliced copy: a valid index removes exactly that bill, -1 removes the last |
| SavedBills.SavedBillsScreen.IndexOf | app/SavedBillsScreen.js:134-138 | for a shown bill the index the buttons pass is a valid position holding that bill |
| SavedBills.SavedBillsScreen.DeleteShown | app/SavedBillsScreen.js:138 | Delete on a shown bill removes its first occurrence and shortens the list by one; with distinct bills, that bill is gone and every other stays |

## Left out

- Rendering, navigation, styles and alerts are left out: they are UI only.
- Speech recognition and its pause timer are left out. A voice result
  arrives as the `text` parameter of `ProcessBillingCommand`, or as the
  argument of `SetInput`.
- AsyncStorage and JSON persistence are left out. `DeleteSavedList`
  models only the state the screen keeps (line 71), not the storage write
  at line 70.
- `naturalSort` is left out: it uses the host's `localeCompare` collation,
  which is not part of this model. `Filtered` is the list before the sort.
- The running total is left out: it uses `parseFloat` on the price
  strings.
- app/Measurement.js is not part of this model: it does floating-point
  rate conversion.
- The "new bill" and "undo" command branches of `processBillingCommand`
  (app/billing.js:460-467) are left out. The parser never produces a
  `command` field, so these branches are unreachable.
- Parser.NumeralValue: `Number` is modelled as an exact decimal, an
  integer part and a fraction with its trailing zeros dropped, and
  `'₹' + value` as writing that decimal out in full. JavaScript's
  double-precision value differs in three ways that are not modelled:
  - integers past 2^53 and fractions past about 17 significant digits are
    rounded, so `0.1234567890123456789` is written `0.12345678901234568`;
  - values below 1e-6 are written in exponent notation, so
    `tea 0.0000001` is priced `₹1e-7` by the source and `₹0.0000001` by
    the model;
  - values of 1e21 and above are also written in exponent notation.
- Levenshtein.Distance: strings are sequences of code points, while
  JavaScript indexes UTF-16 code units. A character outside the Basic
  Multilingual Plane, such as an emoji, counts as one character here and
  as two in the source. The keys themselves lie inside that plane, but
  tokens are free text that every fuzzy match compares with them. So fuzzy
  matching of a token holding such characters can differ. For example, the
  model matches the token `da😀😀` to `dair` at distance 2, while in UTF-16
  code units every key is farther than 2, so the source leaves the token in
  the item.
- Lower-casing is ASCII only. Devanagari has no case, and Unicode case
  mapping of other scripts is not modelled.
- The dictionary lookup `specialHindiNumbers[t]` is modelled for its own
  keys. Inherited `Object.prototype` names such as `constructor` are not
  modelled.
- HindiNumbers.FuzzyMatch models `fuzzyMatchHindiWord` on one token
  without whitespace, which is the only way the parser calls it (line 113).
  Its own `split(/\s+/)` of a line with several tokens is not modelled.
- BillList.Bill.CommitModify: the source copies the array but assigns into
  the shared row object, which also changes the row in the old array. The
  model replaces the row with a new value, so that aliasing is not modelled.
- BillList.Bill.StartModify and BillList.Bill.CommitModify require the row
  to exist. The source reaches them only from a rendered row.
- ShoppingList.CreateList.EditItem requires `0 <= index < |list|`. Its only
  caller is the input of a rendered row (app/CreateListScreen.js:113).
  JavaScript's growing of an array by assignment past its end is not
  modelled.
