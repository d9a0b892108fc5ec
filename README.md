# FMCG product analyzer: field extraction and inventory aggregation in Dafny

The application (`app.py`) takes a photo of a consumer product and sends it to
a remote prediction service. It reads six named fields out of the
newline-separated text that comes back, and keeps a per-session list of the
products seen so far, each with a count. This project models the two pieces
of that program that hold logic, and proves what they do:

- **The field extractor**, `parse_product_details` (app.py:81-107).
  - Six fields start at sentinel strings: "Not identified" for the brand name,
    "Not provided" for the basic details, and "Not specified" for the other four.
  - The analysis text is split on `'\n'`.
  - For each line, the first label (`Brand Name:`, `Date of Manufacturing:`,
    `Date of Expiry:`, `Quantity:`, `MRP:`, `Basic Details:`, tried in that
    order) that occurs anywhere in the line selects the field.
  - That field is overwritten with the text after the line's first colon,
    stripped of surrounding whitespace.
- **The inventory aggregator**, `update_product_data` (app.py:109-121), over
  the session list that starts empty (app.py:55-56).
  - The list is scanned in order. The first entry with the same lowercased
    brand name, the same quantity and the same MRP gets its count raised by
    one, and the scan stops.
  - Otherwise the record is appended with count 1.

Modules, one per file:

- `Wrappers` holds the `Option` datatype.
- `Text` holds the Python string operations the two functions use: substring
  `in`, `split('\n')`, `split(':', 1)[1]`, `strip()` and `lower()`.
- `Lines` proves that `split` on a separator and `join` with it are inverse
  to each other.
- `Extractor` models the parser. It has a pure specification: each line is
  scanned into an optional assignment (`ScanLine`), and the assignments are
  folded over the six sentinels (`Assemble`, `Parse`). The method
  `ParseProductDetails` is the source's loop with its `if/elif` chain, proved
  equal to that specification.
- `Aggregator` models the session list.
  - The class `Inventory` holds a `seq` of products. Its `Update` method is the
    source's scan with an early return, proved equal to the pure `Merge`.
  - `Merge`'s properties are proved as lemmas. `History` replays a sequence of
    calls from the empty list.
- `Examples` covers the line shapes the application produces: a
  `Label:value` line, a blank value, a line with two labels, brand names that
  differ only in case. It also works one analysis text through end to end:
  `"Brand Name: Acme\nQuantity: 500g\nMRP: 99"` gives the brand name
  "Acme", the quantity "500g", the MRP "99", and the sentinels for the two
  dates and the basic details.

Python's `str.strip()` is modelled on ASCII whitespace: the characters
9-13 and 28-32, which are the ASCII characters `str.isspace` accepts.
`str.lower()` is modelled on ASCII letters only. The analysis argument,
which may be `None` in the source, is an `Option<string>`.

## Model

| member | source | states |
|---|---|---|
| Text.Strip | app.py:95 | `strip()`: removes whitespace from both ends, one character at a time; no contract of its own, and StripTrimmed, StripInfix and StripUnique together fix its result for every string |
| Text.StripTrimmed | app.py:95 | `strip()` leaves a string that neither starts nor ends with whitespace and is no longer than the input |
| Text.StripInfix | app.py:95 | `strip()` removes only whitespace, and only at the two ends: the input is whitespace + result + whitespace |
| Text.StripUnique | app.py:95 | any trimmed string surrounded by whitespace strips back to exactly itself, so `strip()` is determined by its specification |
| Text.StripIdempotent | app.py:95 | stripping twice is stripping once |
| Text.Lower | app.py:112 | `lower()` keeps the length and lowercases each character in place |
| Text.LowerIdempotent | app.py:112 | lowercasing twice is lowercasing once |
| Text.Contains | app.py:94 | substring `in`: the string starts with the label or its tail contains it; no contract of its own, and ContainsInfix and ContainsSound give both directions |
| Text.ContainsInfix | app.py:94 | the substring test finds a label wherever it occurs in the line |
| Text.ContainsSound | app.py:94 | the substring test holds only when the label really occurs in the line, at some index |
| Text.ContainsChar | app.py:94 | every character of a contained substring occurs in the string |
| Text.MissingChar | app.py:94 | a line that lacks some character of a label does not contain that label |
| Text.IndexOf | app.py:95 | the index is the first occurrence of the separator |
| Text.AfterFirst | app.py:95 | `split(c, 1)[1]`: what follows the first occurrence of `c`, defined through IndexOf; AfterFirstOf states the result for every string of the form `pre + c + rest` |
| Text.AfterFirstOf | app.py:95 | for `pre + ":" + rest` with no colon in `pre`, `split(':', 1)[1]` gives exactly `rest` |
| Text.Split | app.py:92 | `split('\n')` gives at least one piece, and no piece contains a newline |
| Lines.JoinSplit | app.py:92 | joining the pieces with newlines gives back the analysis text |
| Lines.SplitJoin | app.py:92 | splitting newline-joined, newline-free lines gives back exactly those lines |
| Extractor.Label | app.py:94-104 | the six label literals, each a field name followed by a colon; NameHasNoColon and LabelColon state what the parser relies on |
| Extractor.Default | app.py:82-89 | the sentinel of each field: "Not identified" for the brand name, "Not provided" for the basic details, "Not specified" for the other four; AssembleKeepsDefault and ParseKeepsDefault show a field no line sets keeps it |
| Extractor.Defaults | app.py:82-89 | the dictionary the parser starts from, holding each field's sentinel; AssembleNothing and ParseNoInput show it is the result when no line sets anything |
| Extractor.NameHasNoColon | app.py:94-104 | no label has a colon before its final one |
| Extractor.Set | app.py:95-105 | assigning a dictionary key changes that key and no other |
| Extractor.LabelColon | app.py:94-105 | a line that contains a label contains a colon, so `split(':', 1)[1]` cannot raise on it |
| Extractor.LineValue | app.py:95-105 | `line.split(':', 1)[1].strip()`, defined when the line holds a colon (LabelColon guarantees that on every path that uses it); LineValueOf gives the value for every line of the form `pre:rest` |
| Extractor.LineValueOf | app.py:95-105 | the value is the stripped text after the line's first colon, which may come before the label's own colon |
| Extractor.MatchLabel | app.py:94-105 | a selected field's label occurs in the line |
| Extractor.ScanLine | app.py:93-105 | a line sets a field only if it contains that field's label, and the value is the stripped text after the first colon |
| Extractor.ScanLinePriority | app.py:94-105 | a line containing the label of a field sets that field or one tried before it, and never nothing |
| Extractor.ScanLineFirst | app.py:94-105 | a line containing the label of a field, and no label tried before it, sets exactly that field to the stripped text after its first colon |
| Extractor.ScanLines | app.py:92-93 | one scan per line, in line order |
| Extractor.Assign | app.py:95-105 | one line's effect on the dictionary: nothing, or one key set through Set |
| Extractor.Assemble | app.py:93-105 | the loop as a left fold of the lines' assignments over the sentinels; AssembleLastWins, AssembleKeepsDefault and AssembleNothing pin it down |
| Extractor.Parse | app.py:81-107 | `parse_product_details`: the sentinels for `None` or `""`, otherwise the fold of the newline-split lines; ParseProductDetails is proved equal to it, and ParseLastWins, ParseKeepsDefault, ParseNoInput and ParseGuardRedundant state its behaviour |
| Extractor.ParseProductDetails | app.py:81-107 | the loop with its `if/elif` chain computes exactly the specification `Parse` |
| Extractor.AssembleLastWins | app.py:93-105 | a field set at position i and at no later position holds position i's value |
| Extractor.AssembleKeepsDefault | app.py:82-89 | a field that no line sets keeps its sentinel |
| Extractor.AssembleNothing | app.py:82-105 | lines with no label leave all six sentinels in place |
| Extractor.ParseLastWins | app.py:91-105 | for the analysis text, the last line naming a field determines that field |
| Extractor.ParseKeepsDefault | app.py:82-107 | for an absent analysis or one where no line names a field, that field is its sentinel |
| Extractor.ParseNoInput | app.py:82-91 | `None` and `""` give exactly the six sentinels |
| Extractor.ParseGuardRedundant | app.py:91-92 | the `if analysis:` guard does not change the result for any string |
| Aggregator.SameProduct | app.py:112-114 | the identity key: equal lowercased brand names, equal quantities and equal MRPs; MergeWellFormed shows no two entries share it |
| Aggregator.FirstMatch | app.py:111-117 | the index found is the first entry with the same product key; none exists if nothing is found |
| Aggregator.Merge | app.py:109-121 | `update_product_data`: raise the first matching entry's count or append the record with count 1; no contract of its own, and MergeHit and MergeMiss give both cases, MergeTotal and MergeWellFormed its invariants |
| Aggregator.MergeHit | app.py:111-117 | on a first match at i, the count of entry i rises by exactly one; the length, its other fields and every other entry stay the same |
| Aggregator.MergeMiss | app.py:119-121 | with no match, the record is appended with count 1 after the unchanged, in-order entries |
| Aggregator.TotalCountUpdate | app.py:116 | replacing one entry changes the count total by the difference of the two counts |
| Aggregator.TotalCountAppend | app.py:120-121 | appending an entry adds its count to the total |
| Aggregator.MergeTotal | app.py:109-121 | every call raises the sum of all counts by exactly one |
| Aggregator.MergeWellFormed | app.py:109-121 | counts stay at least one and no two entries share the key (lowercased brand, quantity, MRP) |
| Aggregator.HistoryInvariant | app.py:109-121 | from the empty start, the list is well formed, the counts sum to the number of calls, and there are no more entries than calls |
| Aggregator.NewNewRepeat | app.py:109-121 | new, new, then a repeat of the first gives two entries in insertion order with counts 2 and 1 |
| Aggregator.Inventory.constructor | app.py:55-56 | the session list starts empty, after zero updates |
| Aggregator.Inventory.Update | app.py:109-121 | the scan-and-return loop leaves exactly `Merge` of the old list, and keeps the list well formed with its count total equal to the number of updates |
| Examples.LabelledLine | app.py:93-105 | a `Label:value` line that mentions no earlier label sets its field to the stripped value |
| Examples.BlankValue | app.py:95-105 | a label followed only by whitespace stores `""`, not the sentinel |
| Examples.MrpBeforeBasicDetails | app.py:94-105 | a line holding both `MRP:` and `Basic Details:`, and no label tried before `MRP:`, sets the MRP to the stripped text after the line's first colon |
| Examples.BrandCase | app.py:112-117 | records with equal quantity and MRP whose brand names differ only in ASCII case are one product, so a second such record raises the count to 2 |
| Examples.LabelledLineWithout | app.py:94-105 | a `Label:value` line lacking the first character of every label tried before its own sets its field to the stripped value; this serves Brand Name, Date of Manufacturing, Quantity and MRP lines only, since the Date of Expiry and Basic Details labels themselves hold the first character of an earlier label |
| Examples.SplitThree | app.py:92 | three newline-free lines joined by newlines split back into exactly those three lines |
| Examples.ExampleSplit | app.py:92 | the worked example's text splits into its brand, quantity and MRP lines |
| Examples.ExampleBrandLine | app.py:94-95 | `"Brand Name: Acme"` sets the brand name to `"Acme"` |
| Examples.ExampleQuantityLine | app.py:94-101 | `"Quantity: 500g"` sets the quantity to `"500g"` |
| Examples.ExampleMrpLine | app.py:94-103 | `"MRP: 99"` sets the MRP to `"99"` |
| Examples.AssembleThree | app.py:82-105 | brand, quantity and MRP assignments over the sentinels leave the dates and the basic details at their sentinels |
| Examples.WorkedExample | app.py:81-107 | the whole worked example parses to Acme / 500g / 99 with the sentinels "Not specified", "Not specified" and "Not provided" for the other three fields |

## Left out

- The Streamlit page setup, CSS, upload widget, per-scan display and table rendering (app.py:11-35, 123-174): presentation only.
- Credential loading and Vertex AI initialisation (app.py:38-52): secrets and a foreign library, with no logic to state.
- `analyze_image` (app.py:58-79): a remote prediction call over response objects of unknown shape. The parser's input is an arbitrary `Option<string>` instead.
- Image resizing (app.py:132-135): floating point and imaging-library calls.
- pandas DataFrame construction, column order and HTML styling (app.py:159-172): library rendering.
- Text.StripTrimmed: Unicode whitespace (for example U+00A0 or U+2003) is not stripped; only the ASCII whitespace listed above is.
- Text.Lower: only ASCII letters are lowercased; Unicode case mapping is not modelled.
- Aggregator.Inventory.Update: the entries are values, not shared dictionaries. The source appends the caller's own `details` dictionary, adding a `Count` key to it, and later displays that same object. That aliasing is not modelled.
- Concurrency and persistence: none exist in the source; the list lives for one session.
