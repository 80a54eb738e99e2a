# html2jquery in Dafny

A model of the converter in `index.js` of html2jquery. The converter turns an
HTML fragment into jQuery construction code: a tokenizer reports open tags,
texts and close tags to a `ParserParser`. The `ParserParser` assembles a
forest of elements and trimmed text leaves. For each top-level entry,
`module.exports` then produces one string:

- for an element, the call chain written by a `CodeBuilder`
  (`$('<div>').addClass(...).attr({...}).css({...}).on(...).append(...)`);
- for a bare text, the text formatted by `literal`.

The project has seven modules:

- `Sequences` (`sequences.dfy`): `map`, `filter` and a flat map over
  sequences, with the lemmas that relate them. The loops of the source that
  push one line per element, or one line per element that passes a test,
  are stated with them.
- `Strings` (`strings.dfy`): `String.prototype.split` with a one-character
  separator and `Array.prototype.join`, with their round trips.
- `Literals` (`literals.dfy`): `trim` and `literal`. This covers the `\s`
  character class, the escaping of `\`, `"` and NUL, and the numeric pattern
  `/^\-?\d+(\.\d+)?$/` (a left-to-right scanner proved equal to the pattern).
  It also has `ReadLiteral`, which reads a formatted literal back.
- `Attributes` (`attributes.dfy`): `parseAttr`. A JavaScript object is a
  sequence of key/value pairs in `for...in` order. Assignment keeps the
  position of an existing key and puts a new key last.
- `TreeBuilding` (`tree.dfy`): the `ParserParser` object as a class whose
  fields are updated by `OnOpenTag`, `OnText` and `OnCloseTag`. Beside it is a
  pure step function over the same state. A recursive-descent reading of the
  event stream serves as the reference the builder is proved against.
- `CodeBuilding` (`emit.dfy`): the `CodeBuilder` object as a class with the
  fields `tabs` and `code`. Each method appends to `code` what a pure
  function of the element and the indentation says.
- `Driver` (`driver.dfy`): the result loop of `module.exports`, and the
  feeding of an event stream to a fresh builder.

In these details the model follows the source:

- `literal('')` and `literal` of a string of whitespace give `''` (two quote
  characters), not an empty string (`Literals.LiteralBlank`).
- The tag name is written into `$('<name>')` exactly as it is, not formatted
  (`CodeBuilding.Head`, index.js:40).
- Only the two-character prefix `on` is matched case-insensitively. The rest
  of a handler's name keeps its case (index.js:58-59).
- A close tag with no open element does not make the builder fail. It loses
  the cursor (`cursor` becomes `undefined`), and the top level stays
  reachable as `tree`. Only a later open tag or non-empty text on the lost
  cursor makes the source throw. The model records that as `failed`, and
  the conversion then has no result (`Driver.Transpile` returns `None`).

## Model

| member | source | states |
|---|---|---|
| Strings.Split | index.js:83-86 | a split has one more piece than the string has separators |
| Strings.SplitPiecesFree | index.js:83-86 | no piece of a split contains the separator |
| Strings.JoinSplit | index.js:83-86 | joining the pieces of a split with the separator gives the string back |
| Strings.Join | index.js:78 | `Array.prototype.join`; carried by `JoinSplit` and `SplitJoin` |
| Strings.SplitJoin | index.js:83-86 | splitting a join of separator-free pieces gives the pieces back |
| Literals.Trim | index.js:5-12 | `trim`; its contract is carried by `TrimSpec`, `TrimEmptyIffAllSpace` and `TrimIdempotent` |
| Literals.TrimStartSpec | index.js:6-10 | the leading-whitespace removal keeps a suffix, drops only `\s` characters, and stops at a non-space |
| Literals.TrimEndSpec | index.js:7-10 | the trailing-whitespace removal keeps a prefix, drops only `\s` characters, and stops at a non-space |
| Literals.TrimSpec | index.js:5-12 | `trim(s)` is a slice of `s`; everything cut off on both sides is whitespace; a non-empty result starts and ends with a non-space |
| Literals.TrimEmptyIffAllSpace | index.js:5-12 | `trim(s)` is empty exactly when `s` is all whitespace |
| Literals.TrimIdempotent | index.js:5-12 | trimming twice is trimming once |
| Literals.Escape | index.js:20 | the escaping of `\`, `"` and NUL; carried by `UnescapeEscape`, `EscapeIdentity`, `EscapeHasBackslash` and `EscapeHasQuote` |
| Literals.UnescapeEscape | index.js:16-20 | the escaping of `\`, `"` and NUL can be undone |
| Literals.EscapeIdentity | index.js:16-20 | the escape changes nothing exactly when there is no `\`, `"` or NUL |
| Literals.EscapeLength | index.js:20 | proof step for `EscapeIdentity`: escaping never shortens a string |
| Literals.EscapeHasBackslash | index.js:20-23 | the escaped text has a backslash exactly when the input has a `\`, `"` or NUL |
| Literals.EscapeHasQuote | index.js:20-23 | the escaped text has a `'` exactly when the input does |
| Literals.UnsignedScanPattern | index.js:15 | the digit scanner accepts exactly `\d+(\.\d+)?` |
| Literals.IsNumericPattern | index.js:15-21 | the numeric test accepts exactly `-?\d+(\.\d+)?` |
| Literals.IsNumeric | index.js:15-21 | the test `esc.match(rgxnumber)`; `IsNumericPattern` proves it accepts exactly `-?\d+(\.\d+)?` |
| Literals.NumericChars | index.js:15-21 | a numeric text holds only digits, `-` and `.` |
| Literals.EscapeNumeric | index.js:20-21 | a text is numeric after escaping exactly when it is numeric before, and escaping leaves a numeric text unchanged |
| Literals.Literal | index.js:18-28 | `literal`; its three cases are `LiteralNumeric`, `LiteralDoubleQuoted` and `LiteralSingleQuoted`, and `LiteralRoundTrip` reads it back |
| Literals.LiteralNumeric | index.js:19-22 | a numeric trimmed input is returned unquoted and unchanged |
| Literals.LiteralDoubleQuoted | index.js:19-24 | a non-numeric input needing escapes is returned escaped and in double quotes |
| Literals.LiteralSingleQuoted | index.js:19-26 | any other input is returned trimmed, unescaped, in single quotes, and then holds no `'`, `\`, `"` or NUL |
| Literals.LiteralBlank | index.js:18-26 | an empty or all-whitespace input gives `''` |
| Literals.LiteralRoundTrip | index.js:18-28 | the model's reader (`ReadLiteral`: a backslash takes the next character, `\0` is NUL) gives the trimmed input back from the literal |
| Attributes.IsHandlerName | index.js:58 | the test `name.substr(0, 2).toLowerCase() === 'on'`; what it sends to each bucket is stated by `PlainPartLookup` and `HandlerPartLookup` |
| Attributes.Put | index.js:59-61 | after `m[k] = v`, `k` maps to `v`, every other key keeps its value, keys stay distinct, and no entry but `k`'s is new |
| Attributes.Delete | index.js:54-55 | after `delete m[k]`, no entry has key `k` |
| Attributes.LookupDelete | index.js:54-55 | after `delete m[k]`, `k` is absent and every other key keeps its value |
| Attributes.DeleteDistinct | index.js:54-55 | deleting keeps keys distinct and only removes entries |
| Attributes.RemainingLookup | index.js:54-55 | after the two deletes, `style` and `class` are gone and every other key keeps its value |
| Attributes.PlainPartLookup | index.js:56-63 | the plain bucket holds exactly the attributes whose name does not start with `on` (in any case), with their values |
| Attributes.HandlerPartLookup | index.js:56-60 | an event has a handler exactly when some attribute names it; the handler is the value of the last such attribute |
| Attributes.HandlerPartNone | index.js:56-60 | no handler is stored for an event exactly when no attribute names it |
| Attributes.HandlerPartLast | index.js:56-60 | the handler stored for an event is the value of the last attribute naming it |
| Attributes.HandlerPartDelete | index.js:54-60 | deleting a key that does not start with `on` leaves the handlers unchanged |
| Attributes.Classify | index.js:48-65 | the object `parseAttr` returns; carried by `ParseAttr`, `ClassifyPlain` and `ClassifyHandlers` |
| Attributes.ClassifyPlain | index.js:48-65 | the `attr` bucket holds exactly the attributes other than `style`, `class` and handlers, with their values, under distinct keys |
| Attributes.ClassifyHandlers | index.js:48-65 | the `on` bucket is collected from all the attributes: deleting `style` and `class` removes no handler |
| Attributes.ParseAttr | index.js:48-65 | the loop builds the four buckets of the classification; `rest` is the argument after its deletes |
| TreeBuilding.Step | index.js:127-141 | one handler call on the builder state; the three methods of `TreeBuilder` are proved against it, and `StepTrimmed` and `HistoryTracksDepth` state what it keeps |
| TreeBuilding.Run | index.js:127-141 | the handler calls in order; carried by `ParseSeqRuns`, `WellNestedBuildsForest`, `BalancedBuildsForest` and `DetachedStays` |
| TreeBuilding.TreeOf | index.js:123-141 | `pp.tree` read from the state; carried by `WellNestedBuildsForest` and `TreeTrimmed` |
| TreeBuilding.HistoryTracksDepth | index.js:127-141 | while no prefix closes more than is open, the builder stays attached, and the history length is the number of unclosed opens |
| TreeBuilding.DetachedStays | index.js:139-141 | once a close has found an empty history, the cursor never comes back |
| TreeBuilding.ParseSeqRuns | index.js:127-141 | the builder agrees with the recursive-descent reading of the events, level by level |
| TreeBuilding.WellNestedBuildsForest | index.js:122-141 | on a well-nested stream, `tree` is the forest of the reference reading, and the history length is the depth |
| TreeBuilding.BalancedBuildsForest | index.js:122-141 | after a balanced stream the history is empty and the cursor is the whole forest |
| TreeBuilding.StepTrimmed | index.js:135-138 | each event keeps every stored text leaf non-empty and trimmed |
| TreeBuilding.TreeTrimmed | index.js:135-138 | for any events, every text leaf of `tree` is non-empty and trimmed |
| TreeBuilding.TreeBuilder.constructor | index.js:122-125 | a new builder has an empty cursor, empty history, and is attached |
| TreeBuilding.TreeBuilder.OnOpenTag | index.js:127-134 | the old cursor is saved with the new element, and the cursor becomes its empty child list |
| TreeBuilding.TreeBuilder.OnText | index.js:135-138 | a text that trims to non-empty is pushed trimmed; other texts change nothing |
| TreeBuilding.TreeBuilder.OnCloseTag | index.js:139-141 | the saved cursor comes back holding the closed element; with an empty history the cursor is lost |
| CodeBuilding.Block | index.js:76-79 | the object-literal block is empty exactly when there are no lines |
| CodeBuilding.AttrLines | index.js:71-74 | one line per plain attribute |
| CodeBuilding.AttrLinesContents | index.js:71-74 | line `i` is `literal(name) + ': ' + literal(value)` of attribute `i` |
| CodeBuilding.AttrLinesAppend | index.js:71-74 | the lines of two attribute lists one after the other are the lines of each, in order |
| CodeBuilding.ClassText | index.js:66-69 | `printClass` appends nothing exactly when the class is absent or empty |
| CodeBuilding.AttrText | index.js:70-80 | `printAttr` appends nothing exactly when there is no plain attribute |
| CodeBuilding.StyleLine | index.js:86-88 | a segment gives at most one line, and gives one exactly when it holds exactly one `:` |
| CodeBuilding.StyleLines | index.js:84-89 | never more lines than segments |
| CodeBuilding.StyleLineCases | index.js:86-88 | a segment with exactly one `:` gives the line of its two parts, any other segment nothing |
| CodeBuilding.StyleLinesKeepDeclarations | index.js:84-89 | the lines are those of the segments with exactly one `:`, in order, one line each: every other segment is skipped |
| CodeBuilding.StyleLinesAppend | index.js:84-89 | the lines of two runs of segments one after the other are the lines of each, in order |
| CodeBuilding.StyleLinesOfDeclarations | index.js:84-89 | colon-free `key:value` segments give one `Pair` line each, in order |
| CodeBuilding.StyleOfDeclarations | index.js:81-95 | a style made of well-formed declarations joined by `;` gives the same lines as an attribute object with those pairs |
| CodeBuilding.DeclarationSplits | index.js:86-87 | `key:value` with colon-free parts splits into exactly the two parts |
| CodeBuilding.StyleSkipsSegment | index.js:81-95 | `key:value;bad` with a colon-free `bad` (as in `color:red;bad`) gives the `.css` block with the one pair |
| CodeBuilding.StyleDropsBadSegment | index.js:81-95 | a single segment with zero or several colons gives no `.css` call |
| CodeBuilding.StyleText | index.js:81-95 | what `printStyle` appends; carried by `StyleLinesKeepDeclarations`, `StyleSkipsSegment` and `StyleDropsBadSegment` |
| CodeBuilding.HandlerText | index.js:98-100 | one `.on` call; `OnTextAppend` builds the handler list from it |
| CodeBuilding.OnText | index.js:96-102 | what `printOn` appends; carried by `OnTextAppend` |
| CodeBuilding.OnTextAppend | index.js:96-102 | the handlers of a concatenation are the handlers of each part, one `.on` call per handler in order |
| CodeBuilding.ChildText | index.js:107-115 | what one child appends; carried by `ChildTextElement` and `PrintChild` |
| CodeBuilding.ChildrenText | index.js:103-118 | what `printChildren` appends; carried by `ChildrenTextAppend` |
| CodeBuilding.ChildrenTextAppend | index.js:103-118 | the children of a concatenation give the texts of each part, one `.append` call per child in order |
| CodeBuilding.ChildrenTextStep | index.js:106-116 | proof step for the loop of `PrintChildren`: one more child adds its own `.append` call after the earlier ones |
| CodeBuilding.Head | index.js:39-40 | the indentation and `$('<name>')`; `EmitStartsWithHead` puts it first |
| CodeBuilding.Emit | index.js:38-47 | the chain `dig` appends; carried by `Dig` and `EmitStartsWithHead` |
| CodeBuilding.EmitStartsWithHead | index.js:39-40 | every chain starts with the indentation and `$('<name>')` |
| CodeBuilding.CodeBuilder.constructor | index.js:32-36 | a new builder's `code` is the chain of the element at no indentation |
| CodeBuilding.CodeBuilder.Dig | index.js:38-47 | appends the element's chain at the current indentation and leaves `tabs` as it was |
| CodeBuilding.CodeBuilder.PrintClass | index.js:66-69 | appends `ClassText`; `tabs` unchanged |
| CodeBuilding.CodeBuilder.PrintAttr | index.js:70-80 | the loop collects one line per attribute, and the block is appended; `tabs` unchanged |
| CodeBuilding.CodeBuilder.PrintStyle | index.js:81-95 | the loop keeps the lines of the two-part segments, and the block is appended; `tabs` unchanged |
| CodeBuilding.CodeBuilder.PrintOn | index.js:96-102 | appends one `.on` call per handler in order; `tabs` unchanged |
| CodeBuilding.CodeBuilder.PrintChildren | index.js:103-118 | appends one `.append` call per child, nested chains one tab deeper; `tabs` is restored afterwards |
| CodeBuilding.CodeBuilder.PrintChild | index.js:107-115 | one child: an element is dug one tab deeper and closed at the parent's indentation; a sole text is inline; other texts go on their own line |
| Driver.EntryCode | index.js:153-157 | the string pushed for one entry; carried by `Generate` and `TextEntryReadsBack` |
| Driver.EntryString | index.js:153-157 | the loop body: the code of a fresh `CodeBuilder` for an element, the literal for a text, as `EntryCode` says |
| Driver.Generate | index.js:150-159 | one string per top-level entry, in order: the chain for an element, the literal for a text |
| Driver.Transpile | index.js:145-160 | there is a result exactly when no event reached a lost cursor; it has one string per entry of `tree`; on a balanced stream, one per forest entry |
| Driver.TextEntryReadsBack | index.js:151-157 | a text entry of the result is non-empty, and the model's reader `ReadLiteral` gets the text of the leaf back from it |

## Left out

- The tokenizer (`htmlparser2`) is not part of this model. The model starts from the sequence of open-tag, text and close-tag calls it makes. The name passed to `onclosetag` is dropped because the source ignores it.
- `for...in` order is the order of the pairs. JavaScript visits integer-like keys first in ascending order, and that reordering is not modelled. A `__proto__` key is treated like any other key.
- `parseAttr` deletes `style` and `class` from the element's own attribute object. The model returns the object after the deletes as `rest` and does not write it back into the tree; the source never reads it again.
- Characters are Dafny `char` values, not UTF-16 code units. `\s` is the fixed list of JavaScript whitespace characters.
- `trim` and `literal` with a missing argument (`undefined` or `null`): every caller in the core passes a string, so only strings are modelled.
- Attribute values are strings, as the tokenizer delivers them. Other JavaScript values are not modelled.
- ReadLiteral: the model's reader takes `\0` as NUL whatever follows. JavaScript reads `\0` followed by a digit 1-7 as a legacy octal escape, and strict code rejects `\0` followed by any digit. So for a NUL followed by a digit, `LiteralRoundTrip` and `TextEntryReadsBack` hold for the model's reader only.
- The attribute object an open-tag event carries is assumed to have distinct keys. This is not carried as an invariant of the event stream. `ClassifyPlain` and `PlainPartLookup` require it explicitly.
- Whether the emitted code is valid JavaScript is not modelled. For instance, a line break inside a single-quoted literal is emitted as it is.
- CodeBuilding.CodeBuilder.PrintAttr, PrintStyle, PrintOn and PrintChild: each piece is appended in one statement where the source uses two or three. The resulting `code` is the same.
- The tree builder's aliasing of `tree`, `cursor` and the children arrays of open elements is modelled by `TreeOf`. `TreeOf` shows the open elements with the children delivered so far, instead of sharing arrays.
- The depth property is stated through the recursive shape of the output (`ChildrenTextAppend`, `PrintChild`, `EmitStartsWithHead`) rather than by counting `.append(` openings.
- Concrete input/output cases are not stated one by one; `StyleSkipsSegment` covers `key:value;bad` in general.
