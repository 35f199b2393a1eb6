# Waterpipe template engine, modelled in Dafny

This project models the core of Waterpipe for .NET (`Codeless.WaterpipeSharp`). Waterpipe is a template engine. A template is text with `{{...}}` constructs:
- `{{pipe}}` outputs the pipe's value, HTML-escaped, or raw with `{{&pipe}}`;
- `{{!...}}` is a comment;
- `{{if}}` / `{{if not}}` / `{{elseif}}` / `{{elseif not}}` / `{{else}}` and `{{foreach}}` open blocks, which `{{/if}}` and `{{/foreach}}` close.

A pipe is a sequence of words. Paths read values out of the data. Function names consume the following words as arguments.

The model follows the engine's own structure:

- **Values** (`values.dfy`, `text.dfy`): the dynamic values a template computes with, and the runtime conversions the engine asks of them. These are truthiness, string form, property access, enumeration, comparison, decimal parsing and printing, and substring search.
- **Compiler** (`constructs.dfy`, `htmlscan.dfy`, `tokens.dfy`, `compilespec.dfy`, `compileprops.dfy`, `compiler.dfy`):
  - `TokenList` turns a template into a program of tokens.
  - The two regular expressions it uses are written out as scanners, and each is proved to find the leftmost match.
  - `CompileSpec` states the parse as functions on the compiler's state.
  - `Compiler.TokenList` is the object whose methods update that state step by step. Its methods are proved to compute exactly those functions.
  - `CompileProps` proves what the produced program guarantees. Every control token has a jump target. In a template whose blocks are all closed, every forward jump lands strictly ahead. Every loop end jumps back to the body of its own `foreach`, whose exit jumps to that loop end.
- **Interpreter** (`evalstack.dfy`, `evalcontext.dfy`, `runspec.dfy`, `runprops.dfy`, `interpreter.dfy`):
  - `EvaluationContext.Evaluate()` is the `while` loop over the tokens, with its frame stack, output mode, white-space handling and run counter.
  - `RunSpec` is the same loop as a machine over values. The loop in `Interpreter` is proved to end where that machine ends.
  - `RunProps` proves properties of whole runs: how conditions jump, what an evaluate token writes, that string mode is never left, that loop-free programs finish, and that a loop over nothing skips its body.
- **Pipes** (`pipe.dfy`, `pipeview.dfy`, `objectpath.dfy`, `pipespec.dfy`, `pipecontext.dfy`, `pipeprops.dfy`):
  - Pipe and argument splitting, with escapes and spans.
  - Object paths and their evaluation against frames and globals.
  - The cursor protocol of `PipeContext` (take, take raw, take a lambda, reset, stop, push) and the pipe loop that resolves function names and calls them. `PipeContexts.PipeContext` is proved to compute `PipeSpec`'s functions.
- **Library** (`comparer.dfy`, `extension.dfy`, `builder.dfy`, `globals.dfy`, `helper.dfy`, `lambdas.dfy`, `registry.dfy`, `callsite.dfy`, `builtins.dfy`, `stdio.dfy`):
  - the comparer, the collection extensions and the object builder;
  - the global dictionary, the helpers, the lambdas and the function registry;
  - the error call site;
  - the built-in pipe functions that work on strings, integers and arrays;
  - the printf formatter behind the `%` functions.

## Model

| member | source | states |
|---|---|---|
| Text.NatToString | src/Codeless.WaterpipeSharp/Internal/ObjectPath.cs:149 | the decimal form of a natural number: at least one digit, all digits, no leading zero except for 0 itself |
| Text.IntToString | src/Codeless.WaterpipeSharp/Internal/EvaluationContext.cs:81 | the decimal form of an integer is non-empty and starts with a minus sign exactly when the integer is negative |
| Text.NatToStringValue | src/Codeless.WaterpipeSharp/Internal/ObjectPath.cs:149 | the digits of `NatToString(n)` read back as `n` |
| Text.CanonicalNatRoundTrip | src/Codeless.WaterpipeSharp/Internal/ObjectPath.cs:149 | every digit string without a leading zero is the decimal form of its own value |
| Text.ParseInt32 | src/Codeless.WaterpipeSharp/Internal/Helper.cs:70 | `Int32.TryParse`: a parsed value always lies within 32 bits |
| Text.Int32RoundTrip | src/Codeless.WaterpipeSharp/Internal/Helper.cs:70 | every 32-bit integer parses back from its decimal text |
| Text.IndexOfFrom | src/Codeless.WaterpipeSharp/Internal/TokenList.cs:74 | ordinal `IndexOf`: the leftmost occurrence at or after the start position, or none when there is no occurrence there |
| Text.LastIndexOfChar | src/Codeless.WaterpipeSharp/Internal/Helper.cs:98 | `LastIndexOf(c)`: the rightmost position of the character before the end, or none when it does not occur |
| Text.Split | src/Codeless.WaterpipeSharp/WaterpipeException.cs:30 | `String.Split(c)` always yields at least one piece |
| Text.SplitCount | src/Codeless.WaterpipeSharp/WaterpipeException.cs:30 | one more piece than there are separators |
| Text.SplitLast | src/Codeless.WaterpipeSharp/WaterpipeException.cs:29-30 | the last piece is the text after the last separator, which is what the line-start position computes |
| Tokens.Code | src/Codeless.WaterpipeSharp/Internal/Token.cs:8-16 | every tag has a value between 1 and 7 |
| Tokens.CodesDistinct | src/Codeless.WaterpipeSharp/Internal/Token.cs:8-16 | no two tags share a value |
| Tokens.Type | src/Codeless.WaterpipeSharp/Internal/Token.cs:18-114 | each token kind reports its own tag (jump, test, iteration, iteration end, evaluate, space, text), one tag per kind, and the markup record reports none |
| Tokens.TextValue | src/Codeless.WaterpipeSharp/Internal/Token.cs:90-107 | a space token always reads a single space |
| Tokens.WithTextValue | src/Codeless.WaterpipeSharp/Internal/Token.cs:97-107 | assigning `Value`: an output token takes the new text and keeps its trim flags, a space token still reads a single space |
| Tokens.View | src/Codeless.WaterpipeSharp/Internal/Pipe.cs:15-25 | `new Pipe(text, offset)`: the pipe spans the text from the offset, and its argument list is well nested with every block inside the pipe |
| Values.ArrayIndex | src/Codeless.WaterpipeSharp/Internal/ObjectPath.cs:149 | a property name denotes an array position only when it is that position's canonical decimal key |
| Values.IndexKeyIsIndex | src/Codeless.WaterpipeSharp/Internal/ObjectPath.cs:149 | the key an element is enumerated under denotes that element's position |
| Values.Lookup | src/Codeless.WaterpipeSharp/Internal/ObjectPath.cs:145-158 | a property read on an object finds an entry with that key, and finds nothing exactly when no entry has the key |
| Values.Entries | src/Codeless.WaterpipeSharp/PipeValueComparer.cs:18-19 | own enumerable entries: array elements under their index keys in order, object entries as stored, nothing for other values |
| Values.EntriesReadBack | src/Codeless.WaterpipeSharp/Internal/EvaluationStack.cs:20-26 | reading back an enumerated key gives the entry's value (objects with distinct keys) |
| Values.LookupUnique | src/Codeless.WaterpipeSharp/Internal/EvaluationStack.cs:20-26 | with distinct keys, looking up an entry's key finds that entry |
| Values.StrLessIrreflexive | src/Codeless.WaterpipeSharp/PipeValueComparer.cs:25 | no string is smaller than itself in code-unit order |
| Values.StrLessAsymmetric | src/Codeless.WaterpipeSharp/PipeValueComparer.cs:25 | code-unit order on strings never holds both ways |
| Values.LessAsymmetric | src/Codeless.WaterpipeSharp/PipeValueComparer.cs:25 | the relational `<` the comparer uses is irreflexive and never holds both ways |
| Values.NumberTextRoundTrip | src/Codeless.WaterpipeSharp/Internal/PipeArgument.cs:79 | the decimal text of every integer reads back as that integer, as text and as a string value |
| Values.UntrimmedIntString | src/Codeless.WaterpipeSharp/Internal/PipeArgument.cs:79 | trimming white space leaves the decimal text of an integer as it is |
| Values.SignedTextRoundTrip | src/Codeless.WaterpipeSharp/Internal/PipeArgument.cs:79 | a sign and digits read back as the integer whose decimal text they are |
| Values.NonNumericText | src/Codeless.WaterpipeSharp/Internal/PipeArgument.cs:79-83 | a text holding a character that is no digit, sign or white space has no numeric reading |
| Values.FalsyValues | src/Codeless.WaterpipeSharp/Internal/EvaluationContext.cs:169 | the falsy values are exactly undefined, null, false, 0 and the empty string; arrays, objects and functions are truthy even when their string form is empty |
| Comparer.Compare | src/Codeless.WaterpipeSharp/PipeValueComparer.cs:13-26 | the loop over both arrays' elements returns exactly `Order(x, y)`: the first non-zero element comparison, else the difference of the lengths; scalars: equal is 0, null/undefined or smaller is -1, greater is 1 |
| Comparer.OrderReflexive | src/Codeless.WaterpipeSharp/PipeValueComparer.cs:13-26 | every value, arrays included, compares 0 with itself |
| Comparer.ItemsReflexive | src/Codeless.WaterpipeSharp/PipeValueComparer.cs:16-23 | the element-by-element part of the comparison of an array with itself is 0 from any position |
| Comparer.OrderAntisymmetric | src/Codeless.WaterpipeSharp/PipeValueComparer.cs:13-26 | for values without null, swapping the operands flips the sign of the result |
| Comparer.ItemsAntisymmetric | src/Codeless.WaterpipeSharp/PipeValueComparer.cs:20-23 | the element-by-element comparison flips sign when the arrays are swapped |
| Comparer.NullUndefinedBothFirst | src/Codeless.WaterpipeSharp/PipeValueComparer.cs:25 | null sorts before undefined and undefined before null: the order is not antisymmetric there |
| Comparer.PrefixFirst | src/Codeless.WaterpipeSharp/PipeValueComparer.cs:20-23 | an array sorts strictly before any longer array it is a prefix of |
| Comparer.PrefixItems | src/Codeless.WaterpipeSharp/PipeValueComparer.cs:20-22 | comparing a prefix with its extension finds no differing element |
| Helper.Repeat | src/Codeless.WaterpipeSharp/Internal/Helper.cs:23-29 | the loop appends `count` copies of the string (none for a count that is not positive); the length is the product |
| Helper.Indent | src/Codeless.WaterpipeSharp/Internal/Helper.cs:31-33 | the start text (empty for null) followed by `level` copies of the unit |
| Helper.IndentSpaces | src/Codeless.WaterpipeSharp/Internal/Helper.cs:35-37 | the start text followed by exactly `width * level` spaces and nothing else |
| Helper.RepeatOnly | src/Codeless.WaterpipeSharp/Internal/Helper.cs:23-29 | repeating a string made of one character yields only that character |
| Helper.RepeatAdd | src/Codeless.WaterpipeSharp/Internal/Helper.cs:23-29 | `a + b` copies are `a` copies followed by `b` copies |
| Helper.DisplayStringStable | src/Codeless.WaterpipeSharp/Internal/Helper.cs:39-41 | a rendered text renders as itself whatever the stringifier; the stringifier changes nothing for strings, null, undefined and functions; a number rendered without one reads back as that number |
| Helper.HasPropertyEntries | src/Codeless.WaterpipeSharp/Internal/Helper.cs:66-77 | each enumerated key of an array, or of an object with distinct keys, is a property exactly when its value is not a function; a name an object lacks never is |
| Helper.Escape | src/Codeless.WaterpipeSharp/Internal/Helper.cs:79-93 | the result contains none of `< > " '` and is at least as long as the input |
| Helper.EscapeRoundTrip | src/Codeless.WaterpipeSharp/Internal/Helper.cs:82-93 | escaping without entity preservation loses nothing: decoding the five references gives back the input |
| Helper.UnescapeEntity | src/Codeless.WaterpipeSharp/Internal/Helper.cs:84-90 | each of the five references decodes back to its character, whatever follows it |
| Helper.EscapePlainText | src/Codeless.WaterpipeSharp/Internal/Helper.cs:79-83 | text without any of the five markup characters is returned unchanged, with or without entity preservation |
| Helper.SplitRegExp | src/Codeless.WaterpipeSharp/Internal/Helper.cs:95-105 | a needle `/pattern/flags` with its last slash after position 1 splits into a non-empty pattern and slash-free flags that rebuild it; otherwise there is no such last slash and the result is none |
| Helper.RegExpLiteralRoundTrip | src/Codeless.WaterpipeSharp/Internal/Helper.cs:97-101 | every non-empty pattern and slash-free flags come back out of the literal built from them |
| Lambdas.PropertyAccessReadsEntry | src/Codeless.WaterpipeSharp/PipeLambdaFactory.cs:20-24 | invoking a property-access lambda on an object entry (key passed as a string) reads that entry's value back when the keys are unique |
| Registry.ResolveFirstAnswer | src/Codeless.WaterpipeSharp/Internal/EvaluationContext.cs:199-223 | when every resolver before position k passes the name on, the result is the answer of resolver k; when all pass, the name resolves to null |
| Registry.InsertedAfterLookup | src/Codeless.WaterpipeSharp/Internal/EvaluationContext.cs:104-107 | a resolver inserted at position 1 is asked after the lookup in the named functions and before every resolver registered earlier |
| Registry.PercentNamesFormat | src/Codeless.WaterpipeSharp/Internal/BuiltInPipeFunction.cs:582-589 | a name starting with `%` that is not a named function becomes a formatter with that name as its format; the empty name makes the `%` resolver throw |
| Registry.FunctionRegistry.constructor | src/Codeless.WaterpipeSharp/Internal/EvaluationContext.cs:27-37 | no named functions yet, and a chain holding only the lookup in them |
| Registry.FunctionRegistry.RegisterFunction | src/Codeless.WaterpipeSharp/Internal/EvaluationContext.cs:98-102 | `TryAdd`: a new name is added; a name already registered keeps its first function; the chain is unchanged |
| Registry.FunctionRegistry.RegisterFunctionResolver | src/Codeless.WaterpipeSharp/Internal/EvaluationContext.cs:104-107 | the resolver is inserted at position 1 and the named functions are unchanged |
| Registry.FunctionRegistry.ResolveFunction | src/Codeless.WaterpipeSharp/Internal/EvaluationContext.cs:93-96 | handing out the resolvers of a copy of the chain in turn returns `Resolve` of the chain: the first answer, or null once the chain is exhausted |
| Constructs.IfTail | src/Codeless.WaterpipeSharp/Internal/TokenList.cs:23 | after `if` the keyword ends right there or after a white-space `not`, and only where white space follows |
| Constructs.KeywordEnd | src/Codeless.WaterpipeSharp/Internal/TokenList.cs:23 | the keyword alternatives always match (possibly empty) except where the first character is `}`, and the keyword ends inside the text |
| Constructs.KeywordHasNoBrace | src/Codeless.WaterpipeSharp/Internal/TokenList.cs:23 | a matched keyword never contains `}` |
| Constructs.SkipSpace | src/Codeless.WaterpipeSharp/Internal/TokenList.cs:23 | the `\s*` between keyword and pipe takes the whole run of white space and stops at the first other character |
| Constructs.MatchAt | src/Codeless.WaterpipeSharp/Internal/TokenList.cs:23 | a construct match starts with `{{`, ends with `}}`, is at least four characters long, and its pipe text (group 2) is the slice between the white space and the closing braces |
| Constructs.NextConstruct | src/Codeless.WaterpipeSharp/Internal/TokenList.cs:78 | the next match starts at or after the search position and lies inside the template |
| Constructs.NextIsMatch | src/Codeless.WaterpipeSharp/Internal/TokenList.cs:78 | what the search finds is the match of the pattern at its own index |
| Constructs.NextIsLeftmost | src/Codeless.WaterpipeSharp/Internal/TokenList.cs:78 | no match starts between the search position and the match found; with no match found, none starts anywhere after the search position |
| Constructs.MatchSpells | src/Codeless.WaterpipeSharp/Internal/TokenList.cs:23 | the matched text is `{{`, the keyword, white space, the pipe text and `}}`; the keyword holds no `}` and the pipe text holds no `}}` |
| Constructs.MatchParts | src/Codeless.WaterpipeSharp/Internal/TokenList.cs:23 | a match is assembled from the keyword the alternatives take and the white space skipped after it |
| Constructs.KeywordText | src/Codeless.WaterpipeSharp/Internal/TokenList.cs:23 | what the keyword alternatives take is one of `/`, `!`, `foreach`, `if`, `if not`, `else`, `elseif`, `elseif not`, `&` or nothing |
| Constructs.KeywordForms | src/Codeless.WaterpipeSharp/Internal/TokenList.cs:84-86 | the group-1 value of every match is one of the keyword forms the compiler's switch distinguishes |
| Constructs.ElsewhereIsElse | src/Codeless.WaterpipeSharp/Internal/TokenList.cs:23 | `{{elsewhere}}` matches as an `else` whose pipe text is `where` |
| Constructs.ElseBeginsWord | src/Codeless.WaterpipeSharp/Internal/TokenList.cs:23 | `else` not followed by an `if` keyword is an `else` keyword, whatever word it begins |
| Constructs.IfBeginsWord | src/Codeless.WaterpipeSharp/Internal/TokenList.cs:23 | `if` without white space after it is no keyword: the keyword is empty |
| Constructs.AmpersandKeyword | src/Codeless.WaterpipeSharp/Internal/TokenList.cs:23 | `&` is taken as the keyword exactly when no `}` follows it |
| Constructs.IffyIsExpression | src/Codeless.WaterpipeSharp/Internal/TokenList.cs:23 | `{{iffy}}` matches with an empty keyword and pipe text `iffy`: it is an expression, not an `if` |
| Constructs.LoneAmpersand | src/Codeless.WaterpipeSharp/Internal/TokenList.cs:23 | `{{&}}` matches with an empty keyword and pipe text `&`, since `&` is not taken before `}` |
| Constructs.BodyInMatch | src/Codeless.WaterpipeSharp/Internal/TokenList.cs:74 | the pipe text occurs inside the matched text where group 2 starts |
| Constructs.PipeOffsetAsWritten | src/Codeless.WaterpipeSharp/Internal/TokenList.cs:72-75 | the offset as written (first occurrence of the pipe text in the match) lies between the match start and where group 2 starts |
| Constructs.PipeOffsetMisplaced | src/Codeless.WaterpipeSharp/Internal/TokenList.cs:72-75 | for `{{if f}}` the offset as written is 3, inside the keyword `if`, where group 2 starts at 5 |
| Constructs.PipeTextAt | src/Codeless.WaterpipeSharp/Internal/TokenList.cs:72-75 | the pipe text stands in the template at the corrected offset |
| Constructs.PipeOffsetExact | src/Codeless.WaterpipeSharp/Internal/TokenList.cs:72-75 | the corrected offset is exactly the end of the white space after the keyword |
| HtmlScan.NameEnd | src/Codeless.WaterpipeSharp/Internal/TokenList.cs:25 | `[^\s>\/]+` takes the whole run of tag-name characters and stops at the first white space, `>` or `/` |
| HtmlScan.WordEnd | src/Codeless.WaterpipeSharp/Internal/TokenList.cs:25 | `\w+` takes the whole run of word characters |
| HtmlScan.TagOpenAt | src/Codeless.WaterpipeSharp/Internal/TokenList.cs:25 | the first alternative matches `<`, an optional `/` and a non-empty tag name, and the match is closing exactly when `/` follows the `<` |
| HtmlScan.WordAt | src/Codeless.WaterpipeSharp/Internal/TokenList.cs:25 | the third alternative matches a word at its position, spelled by the text there |
| HtmlScan.MatchAt | src/Codeless.WaterpipeSharp/Internal/TokenList.cs:25 | a match at a position is spelled by the text at that position |
| HtmlScan.NextMatch | src/Codeless.WaterpipeSharp/Internal/TokenList.cs:144 | the next match starts at or after the search position and is spelled by the text there |
| HtmlScan.NextIsMatch | src/Codeless.WaterpipeSharp/Internal/TokenList.cs:144 | what the search finds is the match of the pattern at its own index |
| HtmlScan.NextIsLeftmost | src/Codeless.WaterpipeSharp/Internal/TokenList.cs:144 | no match starts between the search position and the match found; with no match found, none starts after the search position |
| HtmlScan.MatchInside | src/Codeless.WaterpipeSharp/Internal/TokenList.cs:146-149 | a match ends by the end of the text and its value is the slice it covers |
| HtmlScan.ClosingMeansSlash | src/Codeless.WaterpipeSharp/Internal/TokenList.cs:25 | a tag opening is a closing tag (group 1 is `/`) exactly when its text starts with `</` |
| HtmlScan.OpeningTagReadsAsClosing | src/Codeless.WaterpipeSharp/Internal/TokenList.cs:152-172 | for `<b>` group 1 is empty yet reports success, so the opening tag is handled as if it were a closing one and the element-start branch is never taken |
| CompileSpec.ExtendsTrans | src/Codeless.WaterpipeSharp/Internal/TokenList.cs:141-225 | markup-only growth of the token list composes: two text steps in a row are again one |
| CompileSpec.SetTop | src/Codeless.WaterpipeSharp/Internal/TokenList.cs:156 | updating the markup token on top of the stack changes only that token and keeps the stack and the control state |
| CompileSpec.Add | src/Codeless.WaterpipeSharp/Internal/TokenList.cs:171 | adding a token appends exactly that token and leaves the targets, the control stack and the markup stack as they were |
| CompileSpec.PushHtml | src/Codeless.WaterpipeSharp/Internal/TokenList.cs:170-171 | pushing a markup token appends it and records its position on top of the markup stack |
| CompileSpec.PopHtml | src/Codeless.WaterpipeSharp/Internal/TokenList.cs:158 | popping the markup stack drops its top entry and leaves the tokens as they were |
| CompileSpec.AppendText | src/Codeless.WaterpipeSharp/Internal/TokenList.cs:244-253 | text is appended as a markup text token, always outside any element and otherwise only inside an attribute or an opened tag |
| CompileSpec.StartText | src/Codeless.WaterpipeSharp/Internal/TokenList.cs:227-231 | inside an element the innermost markup token records the current token count as the start of its content |
| CompileSpec.EndText | src/Codeless.WaterpipeSharp/Internal/TokenList.cs:233-242 | ending text content changes only the offsets of the innermost markup token and adds no token |
| CompileSpec.MatchStep | src/Codeless.WaterpipeSharp/Internal/TokenList.cs:151-212 | one markup match adds or changes only markup tokens, and fails exactly when an attribute with an `=` is already recorded on the current element (the dictionary add throws) |
| CompileSpec.TextUpTo | src/Codeless.WaterpipeSharp/Internal/TokenList.cs:146-148 | the text between two markup matches is appended by a text step |
| CompileSpec.TextLoop | src/Codeless.WaterpipeSharp/Internal/TokenList.cs:144-217 | the markup loop from any position only adds or changes markup tokens |
| CompileSpec.TextLoopAt | src/Codeless.WaterpipeSharp/Internal/TokenList.cs:144-214 | the markup loop after one match only adds or changes markup tokens |
| CompileSpec.ParseText | src/Codeless.WaterpipeSharp/Internal/TokenList.cs:141-225 | splitting a text into markup tokens only adds or changes markup tokens and keeps the control state |
| CompileSpec.UnexpectedAt | src/Codeless.WaterpipeSharp/Internal/TokenList.cs:62-70 | a parse failure is an "Unexpected" error whose call site spans exactly the construct |
| CompileSpec.NewSlot | src/Codeless.WaterpipeSharp/Internal/TokenList.cs:112 | a new control token gets a fresh slot at the end of the targets, with target 0 |
| CompileSpec.OpenIf | src/Codeless.WaterpipeSharp/Internal/TokenList.cs:100-106 | `{{if}}` appends a condition token with a fresh slot and the negation flag, and opens an `if` block at that token's position |
| CompileSpec.OpenForeach | src/Codeless.WaterpipeSharp/Internal/TokenList.cs:125-130 | `{{foreach}}` appends an iteration token with a fresh slot and opens a `foreach` block at that token's position |
| CompileSpec.Close | src/Codeless.WaterpipeSharp/Internal/TokenList.cs:89-99 | closing sets the block's token target to the token count, sets a pending condition's target only where it was still 0, appends an iteration end jumping back past the iteration token for `foreach`, pops the block and changes no other target |
| CompileSpec.Else | src/Codeless.WaterpipeSharp/Internal/TokenList.cs:107-124 | `else`/`elseif` appends a branch token (sharing the previous jump's slot when there was one), points the previous condition past it, reopens the `if` block at the branch, and for `elseif` appends a new condition with its own slot |
| CompileSpec.ConstructStep | src/Codeless.WaterpipeSharp/Internal/TokenList.cs:84-134 | `!` does nothing; `/` succeeds exactly when the innermost block has that name; `else`/`elseif` exactly when the innermost block is an `if`; `if` and `foreach` open blocks; anything else appends an evaluate token, unencoded for `&`; a failure is "Unexpected" at the construct; tokens are only appended |
| CompileSpec.ConstructKeepsHtml | src/Codeless.WaterpipeSharp/Internal/TokenList.cs:84-134 | a construct step keeps every markup stack entry pointing at a markup token |
| CompileSpec.TextBefore | src/Codeless.WaterpipeSharp/Internal/TokenList.cs:79-81 | the text before a construct, when there is any, is split into markup tokens by a text step |
| CompileProps.InitialInv | src/Codeless.WaterpipeSharp/Internal/TokenList.cs:36-41 | the empty compiler state (no tokens, no open block, empty markup stack) satisfies the compiler invariant |
| CompileProps.TextInv | src/Codeless.WaterpipeSharp/Internal/TokenList.cs:141-225 | splitting text into markup tokens keeps the compiler invariant, since it leaves control tokens and slots alone |
| CompileProps.AddInv | src/Codeless.WaterpipeSharp/Internal/TokenList.cs:131-133 | appending an evaluate or markup token keeps the compiler invariant |
| CompileProps.OpenIfInv | src/Codeless.WaterpipeSharp/Internal/TokenList.cs:100-106 | opening an `if` block keeps the compiler invariant |
| CompileProps.OpenForeachInv | src/Codeless.WaterpipeSharp/Internal/TokenList.cs:125-130 | opening a `foreach` block keeps the compiler invariant |
| CompileProps.CloseBasics | src/Codeless.WaterpipeSharp/Internal/TokenList.cs:89-98 | closing a block patches exactly its own slots to the current token count, keeps every other target and every earlier token, and its slots are held by no other open block |
| CompileProps.CloseForward | src/Codeless.WaterpipeSharp/Internal/TokenList.cs:89-98 | after closing a block every forward control token still either waits on an open block or jumps forward within the program |
| CompileProps.ClosePaired | src/Codeless.WaterpipeSharp/Internal/TokenList.cs:95-97 | after closing a block every iteration-end token and its iteration token still point at each other |
| CompileProps.CloseInv | src/Codeless.WaterpipeSharp/Internal/TokenList.cs:89-98 | closing a block keeps the compiler invariant |
| CompileProps.ElseBasics | src/Codeless.WaterpipeSharp/Internal/TokenList.cs:110-122 | continuing an `if` block patches the pending condition (or the block's token), keeps every other open slot open, opens only fresh slots, and keeps every earlier token |
| CompileProps.ElseForward | src/Codeless.WaterpipeSharp/Internal/TokenList.cs:110-122 | after `else`/`elseif` every forward control token still either waits on an open block or jumps forward |
| CompileProps.ElsePaired | src/Codeless.WaterpipeSharp/Internal/TokenList.cs:110-122 | `else`/`elseif` keeps every loop pairing |
| CompileProps.ElseBelow | src/Codeless.WaterpipeSharp/Internal/TokenList.cs:110-112 | the blocks below the innermost one are untouched by `else` and share no slot with it |
| CompileProps.ElseDistinct | src/Codeless.WaterpipeSharp/Internal/TokenList.cs:110-122 | after `else`/`elseif` no slot is held by two open blocks |
| CompileProps.ElseClean | src/Codeless.WaterpipeSharp/Internal/TokenList.cs:119-121 | a pending `elseif` condition belongs to a block whose token is a jump and is not yet patched |
| CompileProps.ElseForeach | src/Codeless.WaterpipeSharp/Internal/TokenList.cs:110-122 | every open `foreach` block still points at its iteration token after `else` |
| CompileProps.ElseInv | src/Codeless.WaterpipeSharp/Internal/TokenList.cs:107-124 | continuing an `if` block keeps the compiler invariant |
| CompileProps.StepInv | src/Codeless.WaterpipeSharp/Internal/TokenList.cs:84-134 | every construct the compiler accepts keeps the compiler invariant |
| CompileProps.ParseFrom | src/Codeless.WaterpipeSharp/Internal/TokenList.cs:78-138 | the parse loop from any position ends in a state that keeps the compiler invariant, or fails |
| CompileProps.ParseAt | src/Codeless.WaterpipeSharp/Internal/TokenList.cs:78-135 | the loop after a construct's round ends in a state that keeps the invariant, or fails |
| CompileProps.Rest | src/Codeless.WaterpipeSharp/Internal/TokenList.cs:136-138 | the text after the last construct keeps the invariant |
| CompileProps.Round | src/Codeless.WaterpipeSharp/Internal/TokenList.cs:79-134 | one round (the text before a construct, then the construct) keeps the invariant |
| CompileProps.Final | src/Codeless.WaterpipeSharp/Internal/TokenList.cs:77-139 | the compiler's final state on any template keeps the invariant, or compiling fails |
| CompileProps.InvPairsLoops | src/Codeless.WaterpipeSharp/Internal/TokenList.cs:95-97 | in any compiler state that keeps the invariant, each iteration-end token jumps back to just after an earlier iteration token whose own target is that iteration-end token |
| CompileProps.ClosedJumpsForward | src/Codeless.WaterpipeSharp/Internal/TokenList.cs:89-124 | once no block is open, every condition, branch and iteration token jumps strictly forward and at most to the end |
| CompileProps.Compile | src/Codeless.WaterpipeSharp/Internal/TokenList.cs:53-60 | compiling succeeds exactly when the parse does, its program is the parse's tokens and targets, every slot exists with a non-negative target, and loops are paired |
| CompileProps.ClosedTemplateJumpsForward | src/Codeless.WaterpipeSharp/Internal/TokenList.cs:77-139 | a template whose blocks are all closed compiles to a program whose forward jumps all land strictly ahead, within the program |
| CompileProps.IfRound | src/Codeless.WaterpipeSharp/Internal/TokenList.cs:100-106 | in `{{if f}}` the construct is found at 0 and its round opens an `if` block holding one condition token |
| CompileProps.UnclosedBlockAccepted | src/Codeless.WaterpipeSharp/Internal/TokenList.cs:136-139 | a template ending with a block still open is accepted: `{{if f}}` compiles to one condition whose target is still 0, with the `if` block still open |
| Compiler.TokenList.constructor | src/Codeless.WaterpipeSharp/Internal/TokenList.cs:43-47 | constructing a token list keeps the template text and leaves exactly the parse's final state, or its error |
| Compiler.TokenList.Add | src/Codeless.WaterpipeSharp/Internal/TokenList.cs:171 | `Add` appends the token and changes nothing else |
| Compiler.TokenList.SetTopToken | src/Codeless.WaterpipeSharp/Internal/TokenList.cs:156 | updating the markup token on top of the stack in place is the state-level update |
| Compiler.TokenList.PushHtmlToken | src/Codeless.WaterpipeSharp/Internal/TokenList.cs:170-171 | pushing a markup token adds it to the list and puts its position on the markup stack |
| Compiler.TokenList.PopHtmlToken | src/Codeless.WaterpipeSharp/Internal/TokenList.cs:158 | popping the markup stack drops its top |
| Compiler.TokenList.StartTextContent | src/Codeless.WaterpipeSharp/Internal/TokenList.cs:227-231 | the innermost markup token records where its content starts |
| Compiler.TokenList.EndTextContent | src/Codeless.WaterpipeSharp/Internal/TokenList.cs:233-242 | the innermost markup token's last offset is dropped when it is the current position, otherwise the current position is recorded |
| Compiler.TokenList.AppendTextContent | src/Codeless.WaterpipeSharp/Internal/TokenList.cs:244-253 | a text token is added outside any element, or inside an attribute or an opened tag |
| Compiler.TokenList.TextMatch | src/Codeless.WaterpipeSharp/Internal/TokenList.cs:151-212 | one markup match changes the list and stacks as the match step says, with a tag opening told apart by its `/` |
| Compiler.TokenList.TextRound | src/Codeless.WaterpipeSharp/Internal/TokenList.cs:145-212 | one round of the markup loop: the text before the match, then the match |
| Compiler.TokenList.ParseTextContent | src/Codeless.WaterpipeSharp/Internal/TokenList.cs:141-225 | the markup loop over a text ends in the state the text split describes, or fails as it does |
| Compiler.TokenList.OpenIfBlock | src/Codeless.WaterpipeSharp/Internal/TokenList.cs:100-106 | `{{if}}` and `{{if not}}` push a condition token and an open `if` block |
| Compiler.TokenList.OpenForeachBlock | src/Codeless.WaterpipeSharp/Internal/TokenList.cs:125-130 | `{{foreach}}` pushes an iteration token and an open `foreach` block |
| Compiler.TokenList.CloseBlock | src/Codeless.WaterpipeSharp/Internal/TokenList.cs:89-98 | closing patches the block's targets, adds the iteration end for `foreach`, and pops the block |
| Compiler.TokenList.ContinueIf | src/Codeless.WaterpipeSharp/Internal/TokenList.cs:110-122 | `else` and `elseif` patch the previous condition, add the branch token and, for `elseif`, a new condition |
| Compiler.TokenList.ConstructMatch | src/Codeless.WaterpipeSharp/Internal/TokenList.cs:84-134 | one construct changes the state as the construct step says, or reports the same "Unexpected" error |
| Compiler.TokenList.Round | src/Codeless.WaterpipeSharp/Internal/TokenList.cs:79-134 | one round of the parse loop: the text before the construct, then the construct |
| Compiler.TokenList.Parse | src/Codeless.WaterpipeSharp/Internal/TokenList.cs:77-139 | the parse loop over the whole template ends in the compiler's final state, or fails with its error |
| Compiler.TemplateCache.constructor | src/Codeless.WaterpipeSharp/Internal/TokenList.cs:35 | a new cache is empty |
| Compiler.TemplateCache.FromString | src/Codeless.WaterpipeSharp/Internal/TokenList.cs:53-60 | a template already compiled is returned from the cache unchanged; otherwise it is compiled and, on success, cached under its text; the result is the compiled program or the parse error |
| Frames.KeyCount | src/Codeless.WaterpipeSharp/Internal/EvaluationStack.cs:31-38 | null and undefined have no enumerable keys |
| Frames.KeyCountIsKeys | src/Codeless.WaterpipeSharp/Internal/EvaluationStack.cs:34 | the count is the number of enumerable entries and of enumerable keys |
| Frames.ReadBack | src/Codeless.WaterpipeSharp/Internal/EvaluationStack.cs:20 | reading the value under the i-th enumerated key gives the i-th entry's value (objects with distinct keys) |
| Frames.CursorView | src/Codeless.WaterpipeSharp/Internal/EvaluationStack.cs:19-29 | before iteration a frame shows its value with no key or index; while iterating its index is the position; its count is the key count |
| Frames.MoveNextOf | src/Codeless.WaterpipeSharp/Internal/EvaluationStack.cs:40-49 | moves exactly when the value is defined and a next key remains; the position then goes up by one; the enumerator exists afterwards exactly when the value is defined |
| Frames.EvaluationStack.State | src/Codeless.WaterpipeSharp/Internal/EvaluationStack.cs:10-13 | the frame's fields as a cursor value |
| Frames.EvaluationStack.constructor | src/Codeless.WaterpipeSharp/Internal/EvaluationStack.cs:15-17 | wraps the value, no enumerator, position -1, no cached count |
| Frames.EvaluationStack.Value | src/Codeless.WaterpipeSharp/Internal/EvaluationStack.cs:19-21 | the wrapped value before iteration; while iterating, the value of the current entry |
| Frames.EvaluationStack.Key | src/Codeless.WaterpipeSharp/Internal/EvaluationStack.cs:27-29 | undefined before iteration, then the current key as a string |
| Frames.EvaluationStack.Index | src/Codeless.WaterpipeSharp/Internal/EvaluationStack.cs:23-25 | undefined before iteration, then the current position |
| Frames.EvaluationStack.View | src/Codeless.WaterpipeSharp/Internal/EvaluationStack.cs:19-38 | what paths read of the frame: its `Value`, `Key`, `Index` and the key count |
| Frames.EvaluationStack.Count | src/Codeless.WaterpipeSharp/Internal/EvaluationStack.cs:31-38 | returns the number of enumerable keys and caches it, leaving the iteration state alone |
| Frames.EvaluationStack.MoveNext | src/Codeless.WaterpipeSharp/Internal/EvaluationStack.cs:40-49 | never starts on null or undefined; otherwise moves while keys remain and then keeps failing; the new state is `MoveNextOf` of the old one |
| Frames.ViewOfState | src/Codeless.WaterpipeSharp/Internal/EvaluationStack.cs:19-29 | a valid frame is in a cursor state and shows that state's view |
| Frames.EnumerateKeys | src/Codeless.WaterpipeSharp/Internal/EvaluationStack.cs:40-49 | driving a new frame with `MoveNext` until it fails visits every enumerable key once, in order, with `Index` counting 0, 1, 2, … |
| Globals.IndexOfKey | src/Codeless.WaterpipeSharp/PipeGlobal.cs:51-65 | the position of the first entry with the key, or none when no entry has it |
| Globals.Assigned | src/Codeless.WaterpipeSharp/PipeGlobal.cs:62-64 | after `dictionary[key] = value` the key holds the value; the entry count grows by one exactly when the key was new |
| Globals.PipeGlobal.constructor | src/Codeless.WaterpipeSharp/PipeGlobal.cs:19 | a new dictionary has no entries |
| Globals.PipeGlobal.Copy | src/Codeless.WaterpipeSharp/PipeGlobal.cs:39-43 | copying every key of the source through the setter gives the same entries |
| Globals.PipeGlobal.Get | src/Codeless.WaterpipeSharp/PipeGlobal.cs:51-61 | the stored value of a present key; undefined for an absent one |
| Globals.PipeGlobal.TryGetValue | src/Codeless.WaterpipeSharp/PipeGlobal.cs:94-105 | succeeds exactly for a present key, and then yields what the getter yields |
| Globals.PipeGlobal.Count | src/Codeless.WaterpipeSharp/PipeGlobal.cs:70-72 | the number of entries |
| Globals.PipeGlobal.AsValue | src/Codeless.WaterpipeSharp/PipeGlobal.cs:51-61 | the dictionary as an object value reads, key by key, what the getter reads |
| Globals.PipeGlobal.Set | src/Codeless.WaterpipeSharp/PipeGlobal.cs:62-64 | the key now holds the value; every other key keeps its value and presence; the count grows by one exactly when the key was new |
| Globals.PipeGlobal.Add | src/Codeless.WaterpipeSharp/PipeGlobal.cs:74-80 | a present key is refused with a duplicate-key error and nothing changes; otherwise the entry is appended |
| Globals.PipeGlobal.Clear | src/Codeless.WaterpipeSharp/PipeGlobal.cs:82-84 | no entries remain |
| Globals.PipeGlobal.Remove | src/Codeless.WaterpipeSharp/PipeGlobal.cs:90-92 | says whether the key was present; afterwards it is absent, every other key is unchanged and the count drops by one exactly when it was removed |
| Globals.GetAgreesWithObject | src/Codeless.WaterpipeSharp/PipeGlobal.cs:51-61 | reading a key through the dictionary and through its object value agree for every key |
| Globals.Stringified | src/Codeless.WaterpipeSharp/PipeGlobal.cs:27-31 | each entry's key is replaced by its string form, values and order kept |
| Globals.FromDictionary | src/Codeless.WaterpipeSharp/PipeGlobal.cs:27-31 | adding every entry under its key's string form succeeds exactly when those strings are distinct, and then holds exactly those entries; two keys with the same string form throw |
| Globals.CopyIsolated | src/Codeless.WaterpipeSharp/PipeGlobal.cs:33-43 | writing into a copy changes the copy only, never the dictionary it was copied from |
| Builder.KeyedPairs | src/Codeless.WaterpipeSharp/PipeValueObjectBuilder.cs:57-60 | the collected items as key/value pairs, in order |
| Builder.SlotValues | src/Codeless.WaterpipeSharp/PipeValueObjectBuilder.cs:55 | the collected items' values, in order |
| Builder.SlotValuesAppend | src/Codeless.WaterpipeSharp/PipeValueObjectBuilder.cs:45-51 | one more item adds its value at the end |
| Builder.ObjectBuilder.constructor | src/Codeless.WaterpipeSharp/PipeValueObjectBuilder.cs:13-15 | an empty builder in the given mode |
| Builder.ObjectBuilder.FromValues | src/Codeless.WaterpipeSharp/PipeValueObjectBuilder.cs:25-31 | an array builder holding exactly the given values in order |
| Builder.ObjectBuilder.FromDictionary | src/Codeless.WaterpipeSharp/PipeValueObjectBuilder.cs:33-39 | an object builder holding exactly the dictionary's string-keyed entries, in order |
| Builder.ObjectBuilder.Count | src/Codeless.WaterpipeSharp/PipeValueObjectBuilder.cs:41-43 | the number of collected items |
| Builder.ObjectBuilder.Add | src/Codeless.WaterpipeSharp/PipeValueObjectBuilder.cs:45-51 | appends the value, as a keyed entry in object mode and the key ignored in array mode |
| Builder.ObjectBuilder.ToPipeValue | src/Codeless.WaterpipeSharp/PipeValueObjectBuilder.cs:53-62 | array mode gives the array of values; object mode gives the object of pairs, and fails with a repeated key exactly when a key repeats |
| Extension.Kept | src/Codeless.WaterpipeSharp/PipeValueExtension.cs:16-20 | the accepted entries, never more than the input |
| Extension.KeptMembers | src/Codeless.WaterpipeSharp/PipeValueExtension.cs:16-20 | an entry is kept exactly when it is an input entry the lambda accepts |
| Extension.KeptUnique | src/Codeless.WaterpipeSharp/PipeValueExtension.cs:16-20 | keeping a sub-list of uniquely keyed entries keeps the keys unique |
| Extension.SlotsOf | src/Codeless.WaterpipeSharp/PipeValueExtension.cs:18 | one builder item per entry |
| Extension.SlotsOfAt | src/Codeless.WaterpipeSharp/PipeValueExtension.cs:18 | an entry becomes an element in array mode and a keyed entry otherwise |
| Extension.SlotsOfReadBack | src/Codeless.WaterpipeSharp/PipeValueExtension.cs:18 | the builder items read back as the entries' values (array mode) or as the entries themselves (object mode) |
| Extension.KeptAppend | src/Codeless.WaterpipeSharp/PipeValueExtension.cs:16-20 | one more entry is kept after the others exactly when the lambda accepts it |
| Extension.SlotsOfAppend | src/Codeless.WaterpipeSharp/PipeValueExtension.cs:18 | one more entry adds one item at the end |
| Extension.KeptStep | src/Codeless.WaterpipeSharp/PipeValueExtension.cs:16-20 | one round of the filter loop extends the builder by the items of the next kept entry |
| Extension.AddKept | src/Codeless.WaterpipeSharp/PipeValueExtension.cs:16-20 | the loop adds exactly the accepted entries to the builder, in order |
| Extension.Where | src/Codeless.WaterpipeSharp/PipeValueExtension.cs:12-22 | an array yields the array of accepted values; any other value yields the object of accepted entries, failing exactly when their keys repeat |
| Extension.WhereObjectSucceeds | src/Codeless.WaterpipeSharp/PipeValueExtension.cs:12-22 | filtering an object whose keys are distinct never fails |
| Extension.Mapped | src/Codeless.WaterpipeSharp/PipeValueExtension.cs:28-30 | each entry keeps its key and takes the lambda's result as its value |
| Extension.AddMapped | src/Codeless.WaterpipeSharp/PipeValueExtension.cs:28-30 | the loop adds every entry's image to the builder, in order |
| Extension.MappedAppend | src/Codeless.WaterpipeSharp/PipeValueExtension.cs:28-30 | mapping one more entry appends its image |
| Extension.MappedKeys | src/Codeless.WaterpipeSharp/PipeValueExtension.cs:24-32 | mapping keeps the keys, so it keeps them distinct exactly when they were |
| Extension.Map | src/Codeless.WaterpipeSharp/PipeValueExtension.cs:24-32 | an array yields the array of the lambda's results; any other value an object with the same keys, failing exactly when the keys repeat |
| Extension.FirstMatch | src/Codeless.WaterpipeSharp/PipeValueExtension.cs:45-49 | the first entry whose verdict, flipped by `negate`, holds; every earlier entry fails; none when all fail |
| Extension.First | src/Codeless.WaterpipeSharp/PipeValueExtension.cs:42-51 | the first matching entry's value (or true), otherwise undefined (or false) |
| Extension.FirstMatchIs | src/Codeless.WaterpipeSharp/PipeValueExtension.cs:45-49 | an entry that matches after only failing entries is the first match |
| Extension.KeepDefined | src/Codeless.WaterpipeSharp/PipeValueExtension.cs:59-62 | what remains has no null or undefined and comes from the input |
| Extension.Piece | src/Codeless.WaterpipeSharp/PipeValueExtension.cs:56-65 | an element contributes only non-array, defined leaves |
| Extension.FlatPrefix | src/Codeless.WaterpipeSharp/PipeValueExtension.cs:56-65 | the leaves contributed by the first n elements are all non-array and defined |
| Extension.Flattened | src/Codeless.WaterpipeSharp/PipeValueExtension.cs:53-70 | an array flattens to an array of non-array, defined leaves; any other value stays as it is |
| Extension.KeepDefinedNoop | src/Codeless.WaterpipeSharp/PipeValueExtension.cs:59-62 | dropping null and undefined from a list without them changes nothing |
| Extension.FlattenIdempotent | src/Codeless.WaterpipeSharp/PipeValueExtension.cs:53-70 | flattening twice is flattening once |
| Extension.FlatPrefixOfFlat | src/Codeless.WaterpipeSharp/PipeValueExtension.cs:56-65 | the leaves of an already flat array are its elements |
| Extension.AddDefined | src/Codeless.WaterpipeSharp/PipeValueExtension.cs:59-62 | the inner loop adds exactly the defined elements, in order |
| Extension.Flatten | src/Codeless.WaterpipeSharp/PipeValueExtension.cs:53-70 | the recursive method returns `Flattened(src)` |
| Extension.InnerFilterRedundant | src/Codeless.WaterpipeSharp/PipeValueExtension.cs:57-62 | the second null/undefined filter over an already flattened array removes nothing |
| Extension.ToArrayElements | src/Codeless.WaterpipeSharp/PipeValueExtension.cs:72-74 | the elements of an array are its items, so turning any value's elements into an array and back gives the same elements |
| Extension.MapWithFactories | src/Codeless.WaterpipeSharp/PipeValueExtension.cs:24-32 | mapping entries with the constant factory's lambda keeps the keys and puts the constant everywhere; with the property-access factory's lambda it keeps the keys and reads the named property of each value |
| CallSites.CaretWithinConstruct | src/Codeless.WaterpipeSharp/WaterpipeException.cs:27-47 | without a highlight the caret offset is 0 and the marker spans the construct; a highlight inside the construct keeps the caret offset within the construct; a highlight with no end leaves the width unknown |
| CallSites.LineBegin | src/Codeless.WaterpipeSharp/WaterpipeException.cs:29 | the start of the construct's line: just past the last line break before the construct, with no break between it and the construct |
| CallSites.LineEnd | src/Codeless.WaterpipeSharp/WaterpipeException.cs:33-36 | the end of the construct's line lies between the construct's end and the text's end |
| CallSites.Describe | src/Codeless.WaterpipeSharp/WaterpipeException.cs:27-48 | the caret offset is measured from the construct's start; the marker width is the highlight's width, or the construct's when there is no highlight; the text before is at most 20 characters and the excerpt at most the construct's length plus 20 |
| CallSites.LineCountsBreaks | src/Codeless.WaterpipeSharp/WaterpipeException.cs:30-42 | the line number is one more than the number of line breaks before the caret |
| CallSites.ColumnCountsFromBreak | src/Codeless.WaterpipeSharp/WaterpipeException.cs:30-43 | the column is one more than the distance from the last line break before the caret to the caret |
| CallSites.BeforeIsLineTail | src/Codeless.WaterpipeSharp/WaterpipeException.cs:29-32 | the text before the construct is a tail of its line up to the construct, holds no line break, and starts without white space when the trimmed run fits in 20 characters |
| CallSites.TrimmedTail | src/Codeless.WaterpipeSharp/WaterpipeException.cs:31-32 | the last 20 characters of a trimmed run are a tail of the run and hold no line break |
| CallSites.TailOfTail | src/Codeless.WaterpipeSharp/WaterpipeException.cs:31-32 | a suffix of a suffix is a suffix of the whole |
| CallSites.ExcerptHasNoBreak | src/Codeless.WaterpipeSharp/WaterpipeException.cs:37-38 | the excerpt holds no line break |
| CallSites.ExcerptTrimmed | src/Codeless.WaterpipeSharp/WaterpipeException.cs:37-38 | the excerpt is a prefix of the stripped line, which does not end in white space |
| CallSites.StripDropsBreaks | src/Codeless.WaterpipeSharp/WaterpipeException.cs:37 | stripping removes every line break |
| CallSites.StripEmptyIsSpace | src/Codeless.WaterpipeSharp/WaterpipeException.cs:37 | stripping leaves nothing only when the rest of the text is white space |
| CallSites.StripEndsInText | src/Codeless.WaterpipeSharp/WaterpipeException.cs:37 | what stripping leaves never ends in white space |
| Paths.FieldEnd | src/Codeless.WaterpipeSharp/Internal/ObjectPath.cs:28 | the run `[^.]*` ends at the first dot at or after the start, or at the end of the text |
| Paths.CloseParen | src/Codeless.WaterpipeSharp/Internal/ObjectPath.cs:28 | the `[^)]+` of `$(...)` ends at the first closing parenthesis after the start, if there is one |
| Paths.MatchAt | src/Codeless.WaterpipeSharp/Internal/ObjectPath.cs:28 | an attempt of the path pattern at one position always moves forward; a literal match starts with a character other than `$ . ( )` and contains no dot; a nested match is shorter than the text |
| Paths.Scan | src/Codeless.WaterpipeSharp/Internal/ObjectPath.cs:44 | the successive matches, each search resuming after the previous match, all satisfy the shape of a single match |
| Paths.AtDigits | src/Codeless.WaterpipeSharp/Internal/ObjectPath.cs:29 | `^@(\d+)$` accepts an `@` followed by a non-empty run of digits and yields those digits |
| Paths.SelectMode | src/Codeless.WaterpipeSharp/Internal/ObjectPath.cs:52-85 | a nested first segment reads by name; the mode is `Default` exactly when the first segment is no keyword; the root frame is selected exactly by `_` and `@root` |
| Paths.Parse | src/Codeless.WaterpipeSharp/Internal/ObjectPath.cs:42-87 | the parsed path keeps its text, always has at least one segment, and its mode and frame are those its first segment selects |
| Paths.SegmentOf | src/Codeless.WaterpipeSharp/Internal/ObjectPath.cs:45-47 | a match becomes a segment whose text is the matched text; a literal match becomes a literal segment |
| Paths.FromString | src/Codeless.WaterpipeSharp/Internal/ObjectPath.cs:42-87 | the loop over the matches, recursing into nested paths and then switching on the first segment, builds exactly the parsed path |
| Paths.SegmentFromPiece | src/Codeless.WaterpipeSharp/Internal/ObjectPath.cs:45-47 | one match becomes a literal segment or a recursively parsed nested path, as the parse defines |
| Paths.PlainPathSegments | src/Codeless.WaterpipeSharp/Internal/ObjectPath.cs:44-51 | a dotted path of plain names parses into literal segments that join back, with dots, into the original text |
| Paths.NoMatchIsLiteral | src/Codeless.WaterpipeSharp/Internal/ObjectPath.cs:49-51 | a text in which nothing matches becomes a single literal segment equal to the whole text |
| Paths.ValueAt | src/Codeless.WaterpipeSharp/Internal/EvaluationContext.cs:69-74 | a frame index past the outermost frame reads undefined |
| Paths.FindFrame | src/Codeless.WaterpipeSharp/Internal/ObjectPath.cs:120-127 | the frame found is the innermost one whose value has the name; when none is found, no frame has it |
| Paths.UnresolvedNameFails | src/Codeless.WaterpipeSharp/Internal/ObjectPath.cs:128-132 | a name that no frame and no global has makes the path invalid, with the globals object as the value |
| Paths.InnermostFrameWins | src/Codeless.WaterpipeSharp/Internal/ObjectPath.cs:121-127 | a name resolves in the innermost frame that has it, and its value there is the result; outer frames and the globals are not consulted |
| Paths.ShorthandValidity | src/Codeless.WaterpipeSharp/Internal/ObjectPath.cs:102 | each keyword is a single literal segment, and it is valid exactly when shorthand is accepted or it is not one of `.`, `#`, `##`, `_` |
| Paths.ShorthandSegment | src/Codeless.WaterpipeSharp/Internal/ObjectPath.cs:52-76 | every mode keyword parses as one literal segment |
| Paths.SingleField | src/Codeless.WaterpipeSharp/Internal/ObjectPath.cs:28 | a text without dots that starts like a segment is matched whole, as one literal |
| Paths.ApplyStopsAtNull | src/Codeless.WaterpipeSharp/Internal/ObjectPath.cs:137-140 | once the value is null or undefined, the remaining segments are not read and the value stays |
| Paths.IterationIgnoresRest | src/Codeless.WaterpipeSharp/Internal/ObjectPath.cs:104-106 | an iteration-key path reads the current frame's key, and whatever segments follow are ignored |
| PathEvaluation.TryEvaluate | src/Codeless.WaterpipeSharp/Internal/ObjectPath.cs:95-142 | over the live frame objects and globals, the method returns the validity and value that the evaluation defines on their view |
| PathEvaluation.EvalShorthand | src/Codeless.WaterpipeSharp/Internal/ObjectPath.cs:102 | outside the iteration forms, accepting shorthand changes only the validity and never the value |
| PathEvaluation.IterationValue | src/Codeless.WaterpipeSharp/Internal/ObjectPath.cs:104-112 | `#key`, `#index` and `#count` give the current frame's key, index and key count |
| PathEvaluation.StartAndApply | src/Codeless.WaterpipeSharp/Internal/ObjectPath.cs:113-136 | a stack path starts at its frame, a global path at the globals object and a name at its innermost definition, and each then reads the remaining segments |
| PathEvaluation.FirstValue | src/Codeless.WaterpipeSharp/Internal/ObjectPath.cs:120-134 | the search loop finds the innermost frame with the name, else falls back to the globals, and reports not-resolved only when the globals lack the name too |
| PathEvaluation.ApplyRest | src/Codeless.WaterpipeSharp/Internal/ObjectPath.cs:137-140 | the loop over the later segments gives the value the evaluation defines, stopping at null or undefined |
| PathEvaluation.SegmentNameOf | src/Codeless.WaterpipeSharp/Internal/ObjectPath.cs:138 | a segment's name is its literal text, or the string form of the nested path's value |
| PipeViews.ArgOf | src/Codeless.WaterpipeSharp/Internal/Pipe.cs:18-20 | the argument built from a scanned match keeps the match's unescaped text |
| PipeViews.MakeArg | src/Codeless.WaterpipeSharp/Internal/PipeArgument.cs:20-26 | an argument keeps its text and mode, and its `Length` is the bracket distance over the texts from it on |
| PipeViews.ViewOfText | src/Codeless.WaterpipeSharp/Internal/Pipe.cs:15-25 | the pipe built from a text spans from the index to the index plus the text's length, with one argument per match, carrying the match texts in order |
| PipeViews.ArgOfObject | src/Codeless.WaterpipeSharp/Internal/PipeArgument.cs:35-55 | an argument object keeps its text and mode, and its memoised `Length` is the bracket distance computed over the following arguments |
| PipeViews.ConstructedView | src/Codeless.WaterpipeSharp/Internal/Pipe.cs:15-25 | a pipe object whose arguments agree with the matches of its text is the pipe read from that text |
| PipeViews.ArgAgrees | src/Codeless.WaterpipeSharp/Internal/PipeArgument.cs:20-26 | an argument object agreeing with a scanned match is the argument built from that match |
| PipeViews.TextViewNested | src/Codeless.WaterpipeSharp/Internal/PipeArgument.cs:35-55 | in a pipe read from any text, every bracketed lambda's body lies inside it, and lambdas nest properly |
| PipeViews.CloseShift | src/Codeless.WaterpipeSharp/Internal/PipeArgument.cs:43-50 | the closing bracket `Length` finds is the first one at depth zero after the opening one; when none is found there is none |
| PipeViews.InnerCloses | src/Codeless.WaterpipeSharp/Internal/PipeArgument.cs:43-50 | a lambda opened inside another lambda's body also closes inside it |
| PipeViews.MeasuredNested | src/Codeless.WaterpipeSharp/Internal/PipeArgument.cs:35-55 | when every argument carries its `Length`, lambda bodies nest and stay inside the pipe |
| Pipes.EscapeAt | src/Codeless.WaterpipeSharp/Internal/Pipe.cs:13 | an escape pair is a backslash followed by one more character |
| Pipes.FirstUnitAt | src/Codeless.WaterpipeSharp/Internal/Pipe.cs:13 | an unquoted argument cannot begin with a space or a quote |
| Pipes.UnitAt | src/Codeless.WaterpipeSharp/Internal/Pipe.cs:13 | a unit of an unquoted argument is one character or one escape pair, within the text |
| Pipes.QuotedUnitAt | src/Codeless.WaterpipeSharp/Internal/Pipe.cs:13 | inside quotes, only a quote or a backslash without a following character stops the run |
| Pipes.UnquotedEnd | src/Codeless.WaterpipeSharp/Internal/Pipe.cs:13 | the greedy unquoted run stops at the first position where no further unit matches |
| Pipes.QuotedEnd | src/Codeless.WaterpipeSharp/Internal/Pipe.cs:13 | the greedy quoted run stops at the first position where no further quoted unit matches |
| Pipes.Unescape | src/Codeless.WaterpipeSharp/Internal/Pipe.cs:18 | replacing each escape pair by its character never lengthens the text |
| Pipes.ArgAt | src/Codeless.WaterpipeSharp/Internal/Pipe.cs:17-20 | each attempt moves forward; an argument found starts at the attempt's position and ends where scanning resumes; it is a constant exactly when it opens with a quote and evaluated exactly when it opens with `$`; a space yields nothing |
| Pipes.ScanArgsOrdered | src/Codeless.WaterpipeSharp/Internal/Pipe.cs:17-21 | the arguments are non-empty, lie within the text in increasing order without overlapping, and carry the modes their first characters select |
| Pipes.UnescapeEscaped | src/Codeless.WaterpipeSharp/Internal/Pipe.cs:18 | unescaping undoes the escaping of quotes and backslashes |
| Pipes.UnescapePlain | src/Codeless.WaterpipeSharp/Internal/Pipe.cs:18 | text without backslashes is left unchanged by unescaping |
| Pipes.QuotedEndEscaped | src/Codeless.WaterpipeSharp/Internal/Pipe.cs:13 | the quoted run over an escaped text ends exactly before the closing quote |
| Pipes.QuotedRoundTrip | src/Codeless.WaterpipeSharp/Internal/Pipe.cs:17-21 | any text, escaped and quoted, scans back as exactly one constant argument holding that text |
| Pipes.UnquotedEndWord | src/Codeless.WaterpipeSharp/Internal/Pipe.cs:13 | an unquoted run over a word without spaces or backslashes ends at the next space or the end of the text |
| Pipes.WordArg | src/Codeless.WaterpipeSharp/Internal/Pipe.cs:17-20 | a plain word followed by a space or the end is one argument, taken as written, evaluated when it opens with `$` and automatic otherwise |
| Pipes.WordsScan | src/Codeless.WaterpipeSharp/Internal/Pipe.cs:17-21 | plain words joined by single spaces scan back as exactly those words |
| Pipes.WordsScanMore | src/Codeless.WaterpipeSharp/Internal/Pipe.cs:17-21 | two or more joined words scan back as those words |
| Pipes.WordsSplit | src/Codeless.WaterpipeSharp/Internal/Pipe.cs:17 | joined words are the first word, a space, then the rest joined |
| Pipes.WordThenSpace | src/Codeless.WaterpipeSharp/Internal/Pipe.cs:17 | a word followed by a space scans as that word, and the scan then resumes after the space |
| Pipes.FirstWord | src/Codeless.WaterpipeSharp/Internal/Pipe.cs:17-20 | the scan from a word's start yields that word and resumes right after it |
| Pipes.SkipSpace | src/Codeless.WaterpipeSharp/Internal/Pipe.cs:17 | a space starts no argument |
| Pipes.ScanStep | src/Codeless.WaterpipeSharp/Internal/Pipe.cs:17 | the scan is the argument at the current position, if any, followed by the scan from where that attempt resumes |
| Pipes.ParseValueClassifies | src/Codeless.WaterpipeSharp/Internal/PipeArgument.cs:66-84 | the keywords give their constants, numeric text gives its number, and exactly the remaining texts stay strings, unchanged |
| Pipes.ParseNumberText | src/Codeless.WaterpipeSharp/Internal/PipeArgument.cs:66-84 | the decimal text of every integer parses as that number |
| Pipes.NumberTextNoKeyword | src/Codeless.WaterpipeSharp/Internal/PipeArgument.cs:67-78 | the decimal text of a non-zero integer is none of the keywords |
| Pipes.ParseNumeric | src/Codeless.WaterpipeSharp/Internal/PipeArgument.cs:66-84 | a numeric text that is none of the keywords parses as its number |
| Pipes.WordStaysString | src/Codeless.WaterpipeSharp/Internal/PipeArgument.cs:79-83 | a text that is no keyword and holds a character that is no digit, sign or space stays that string |
| Pipes.ModeOf | src/Codeless.WaterpipeSharp/Internal/PipeArgument.cs:25 | anything that is not a string literal is a constant; a string keeps the mode the scanner gave it |
| Pipes.QuotedNumberIsNumber | src/Codeless.WaterpipeSharp/Internal/PipeArgument.cs:66-84 | the decimal text of any integer, quoted, scans back as one constant argument whose value is that number; the empty text parses as zero |
| Pipes.CloseAt | src/Codeless.WaterpipeSharp/Internal/PipeArgument.cs:43-50 | the walk stops at the first closing bracket that brings the open count to zero, and returns 0 when there is none |
| Pipes.DepthStep | src/Codeless.WaterpipeSharp/Internal/PipeArgument.cs:44-46 | the depth of a window is the first argument's bracket change plus the depth of the rest |
| Pipes.PipeArgument.constructor | src/Codeless.WaterpipeSharp/Internal/PipeArgument.cs:20-26 | the new argument keeps its text and span, parses its value, takes its mode from the value, and has no successor and empty caches |
| Pipes.PipeArgument.Length | src/Codeless.WaterpipeSharp/Internal/PipeArgument.cs:35-55 | the first call computes the bracket distance over the texts of the following arguments and caches it; later calls return the cached value |
| Pipes.PipeArgument.ObjectPath | src/Codeless.WaterpipeSharp/Internal/PipeArgument.cs:57-64 | the argument's text parsed as an object path, cached |
| Pipes.InsertItem | src/Codeless.WaterpipeSharp/Internal/Pipe.cs:35-40 | appending links the previous last argument to the new one and leaves every cache untouched |
| Pipes.ScanPipe | src/Codeless.WaterpipeSharp/Internal/Pipe.cs:17-21 | the loop creates one new, linked argument per match, in order, each agreeing with its match |
| Pipes.AppendMatch | src/Codeless.WaterpipeSharp/Internal/Pipe.cs:18-20 | one iteration adds a new argument agreeing with the match, linked after the others, which are unchanged |
| Pipes.Pipe.constructor | src/Codeless.WaterpipeSharp/Internal/Pipe.cs:15-25 | the pipe keeps its text, spans from the index to the index plus the text's length, and holds one fresh argument per match |
| Pipes.Pipe.LengthAt | src/Codeless.WaterpipeSharp/Internal/PipeArgument.cs:35-55 | the `Length` of the k-th argument is the bracket distance over the texts from it on, and it is cached |
| PipeContexts.PipeContext.State | src/Codeless.WaterpipeSharp/PipeContext.cs:18-26 | the context's cursor, bounds, reset position, input, value and pushed values, read as one value |
| PipeContexts.PipeContext.constructor | src/Codeless.WaterpipeSharp/PipeContext.cs:28-34 | a new context spans the whole pipe, its cursor at the first argument, nothing pushed |
| PipeContexts.PipeContext.Sub | src/Codeless.WaterpipeSharp/PipeContext.cs:36-40 | a sub-context shares the evaluation context and the pipe and spans the given bounds |
| PipeContexts.PipeContext.Stop | src/Codeless.WaterpipeSharp/PipeContext.cs:60-63 | the cursor moves past the end and the value is returned; nothing else changes |
| PipeContexts.PipeContext.Push | src/Codeless.WaterpipeSharp/PipeContext.cs:65-68 | the value is appended to the pushed values and returned; nothing else changes |
| PipeContexts.PipeContext.TakeArgumentAsRaw | src/Codeless.WaterpipeSharp/PipeContext.cs:75-84 | the next argument as a lambda or as its parsed constant, without evaluating paths; undefined past the end; the globals and frames are untouched |
| PipeContexts.PipeContext.TakeArgument | src/Codeless.WaterpipeSharp/PipeContext.cs:90-111 | the next argument's value and the state after it are exactly those the evaluation model's `Take` defines |
| PipeContexts.PipeContext.TakeBracketed | src/Codeless.WaterpipeSharp/PipeContext.cs:98-103 | a bracketed lambda at the cursor is taken and invoked on the input (at the reset position) or on the value, as `Take` defines |
| PipeContexts.PipeContext.TakePath | src/Codeless.WaterpipeSharp/PipeContext.cs:104-110 | a path argument is evaluated with shorthand accepted exactly at the reset position, and used, or replaced by its constant or the input, as `Take` defines |
| PipeContexts.PipeContext.Reset | src/Codeless.WaterpipeSharp/PipeContext.cs:70-73 | the reset position moves to the cursor and the next argument is taken there |
| PipeContexts.PipeContext.TakeLambda | src/Codeless.WaterpipeSharp/PipeContext.cs:117-128 | a bracketed lambda is taken whole and the cursor skips past its closing bracket; otherwise the factory, when given, makes a lambda from the next argument; otherwise none |
| PipeContexts.PipeContext.InvokeLambda | src/Codeless.WaterpipeSharp/PipeContext.cs:175-182 | a made lambda is applied; a bracketed one runs its body with a frame pushed and popped around it, as the model's `Invoke` defines |
| PipeContexts.PipeContext.RunLambda | src/Codeless.WaterpipeSharp/PipeContext.cs:175-182 | a bracketed lambda runs a sub-context over its body, with a frame for the entry pushed before and popped after; the frames end as they were |
| PipeContexts.PipeContext.TakeArguments | src/Codeless.WaterpipeSharp/PipeFunction.cs:256-305 | a function of fixed arity takes that many arguments, in order |
| PipeContexts.PipeContext.LetAll | src/Codeless.WaterpipeSharp/Internal/BuiltInPipeFunction.cs:49-55 | `let` takes a raw name and a value in turn until the arguments run out, setting each global |
| PipeContexts.PipeContext.Test | src/Codeless.WaterpipeSharp/Internal/BuiltInPipeFunction.cs:154-159 | `?` takes three lambdas (constants when not bracketed) and runs the second or the third on the value according to the first |
| PipeContexts.PipeContext.Choose | src/Codeless.WaterpipeSharp/Internal/BuiltInPipeFunction.cs:158 | the choice `?` makes on the current value, as the model's `Decide` defines |
| PipeContexts.PipeContext.Replace | src/Codeless.WaterpipeSharp/Internal/BuiltInPipeFunction.cs:174-187 | `replace` takes a needle, then a lambda or a replacement text, as the model's `Replace` defines |
| PipeContexts.PipeContext.CallFunction | src/Codeless.WaterpipeSharp/PipeContext.cs:138-140 | a resolved function is invoked on this context; its result, or none when it throws, and the state after it |
| PipeContexts.PipeContext.CallPipe | src/Codeless.WaterpipeSharp/Internal/BuiltInPipeFunction.cs:27-30 | `|` pushes the value and restarts the pipe at the next argument |
| PipeContexts.PipeContext.CallLogic | src/Codeless.WaterpipeSharp/Internal/BuiltInPipeFunction.cs:33-40 | `&&` and `||` go on when the value decides nothing, and otherwise stop the pipe |
| PipeContexts.PipeContext.CallAs | src/Codeless.WaterpipeSharp/Internal/BuiltInPipeFunction.cs:44-47 | `as` stores the value under the name its next raw argument gives, and keeps the value |
| PipeContexts.PipeContext.CallLet | src/Codeless.WaterpipeSharp/Internal/BuiltInPipeFunction.cs:49-55 | `let` sets its globals and yields undefined |
| PipeContexts.PipeContext.CallNot | src/Codeless.WaterpipeSharp/Internal/BuiltInPipeFunction.cs:134-136 | `!` negates the next argument, or the value when no argument is left |
| PipeContexts.PipeContext.CallIn | src/Codeless.WaterpipeSharp/Internal/BuiltInPipeFunction.cs:523-526 | `in` tells whether the value is among the next argument's items |
| PipeContexts.PipeContext.CallNative | src/Codeless.WaterpipeSharp/PipeFunction.cs:244-306 | a built-in function takes its arguments, then its delegate is applied to the value and them |
| PipeContexts.PipeContext.CallHost | src/Codeless.WaterpipeSharp/PipeFunction.cs:244-306 | a host function takes its arguments, then is called; its nested template runs add to the 16-bit counter |
| PipeContexts.PipeContext.Turn | src/Codeless.WaterpipeSharp/PipeContext.cs:134-160 | one turn of the loop: the name at the cursor is resolved and called, an unknown name yields its constant at the reset position and is an error elsewhere, and a throw is recorded with its call site |
| PipeContexts.PipeContext.TurnCall | src/Codeless.WaterpipeSharp/PipeContext.cs:137-159 | a turn whose name resolved: the function is called and a throw is recorded over the arguments it consumed |
| PipeContexts.PipeContext.Advance | src/Codeless.WaterpipeSharp/PipeContext.cs:136 | the cursor moves one argument on; nothing else changes |
| PipeContexts.PipeContext.RunTurns | src/Codeless.WaterpipeSharp/PipeContext.cs:134-160 | the loop runs turns until the cursor passes the end, as the model's `Run` defines |
| PipeContexts.PipeContext.Enter | src/Codeless.WaterpipeSharp/PipeContext.cs:131-132 | the cursor starts at the context's start and the input is the current frame's value |
| PipeContexts.PipeContext.SetValue | src/Codeless.WaterpipeSharp/PipeContext.cs:133 | only the current value changes |
| PipeContexts.PipeContext.Result | src/Codeless.WaterpipeSharp/PipeContext.cs:161-165 | the result is the value, or the pushed values followed by the value, flattened |
| PipeContexts.PipeContext.Evaluate | src/Codeless.WaterpipeSharp/PipeContext.cs:130-166 | start, reset, the loop and the result together give the value and the state the evaluation model defines for the pipe |
| PipeContexts.PipeContext.Drive | src/Codeless.WaterpipeSharp/PipeContext.cs:133-165 | the reset, the loop and the result from the entered state, as the model's `Drive` defines |
| PipeContexts.EvaluatePipe | src/Codeless.WaterpipeSharp/Internal/Pipe.cs:31-33 | evaluating a pipe is a new context over all of its arguments, evaluated; the frames end as they were |
| PipeSpec.Raise | src/Codeless.WaterpipeSharp/PipeContext.cs:147-158 | recording a failure appends one error, flagged as an unknown name or not, whose call site highlights the arguments the turn consumed; the frames, globals and counter are untouched |
| PipeSpec.ErrorAt | src/Codeless.WaterpipeSharp/PipeContext.cs:151-157 | the recorded call site runs from the start of the first argument consumed to the end of the last |
| PipeSpec.Invoke | src/Codeless.WaterpipeSharp/PipeContext.cs:175-182 | invoking a lambda leaves the frames as they were, keeps every earlier error and keeps the counter within 16 bits |
| PipeSpec.InvokeBracketed | src/Codeless.WaterpipeSharp/PipeContext.cs:175-182 | a bracketed lambda is its body evaluated under the entry's frame, which is dropped again afterwards |
| PipeSpec.Take | src/Codeless.WaterpipeSharp/PipeContext.cs:90-111 | taking an argument only moves the cursor forward within the range; the reset position, input, value and pushed values stay |
| PipeSpec.Reset | src/Codeless.WaterpipeSharp/PipeContext.cs:70-73 | the reset position becomes the cursor's position before the argument is taken |
| PipeSpec.TakeRaw | src/Codeless.WaterpipeSharp/PipeContext.cs:75-84 | taking a raw argument changes only the cursor, which moves forward whenever an argument remains |
| PipeSpec.TakeLambda | src/Codeless.WaterpipeSharp/PipeContext.cs:117-128 | only the cursor moves; with a factory a lambda is always produced; a bracketed lambda lies inside the context's range |
| PipeSpec.TakeN | src/Codeless.WaterpipeSharp/PipeFunction.cs:256-305 | a function of arity n receives exactly n arguments, and only the cursor of the context moves |
| PipeSpec.TakeMore | src/Codeless.WaterpipeSharp/PipeFunction.cs:256-305 | taking m more arguments after some have been taken yields m more values |
| PipeSpec.TakeMoreStep | src/Codeless.WaterpipeSharp/PipeFunction.cs:269 | taking one more argument moves it from the arguments to come to those taken, in order |
| PipeSpec.Let | src/Codeless.WaterpipeSharp/Internal/BuiltInPipeFunction.cs:49-55 | `let` consumes every remaining argument and changes nothing of the context but its cursor |
| PipeSpec.LetStep | src/Codeless.WaterpipeSharp/Internal/BuiltInPipeFunction.cs:50-53 | one round of `let` takes a raw name, then a value, and assigns the value to the global of that name |
| PipeSpec.Decide | src/Codeless.WaterpipeSharp/Internal/BuiltInPipeFunction.cs:158 | choosing between the lambdas leaves the frames as they were and keeps every earlier error |
| PipeSpec.Test | src/Codeless.WaterpipeSharp/Internal/BuiltInPipeFunction.cs:154-159 | `?` only moves the cursor of the context and always yields a value |
| PipeSpec.TestPhases | src/Codeless.WaterpipeSharp/Internal/BuiltInPipeFunction.cs:155-158 | `?` takes three lambdas in turn, constants when not bracketed, and the first, applied to the value, decides between the other two |
| PipeSpec.Replaced | src/Codeless.WaterpipeSharp/Internal/BuiltInPipeFunction.cs:188-193 | a needle that is no regular expression and does not occur in the value's string form leaves the value unchanged |
| PipeSpec.Replace | src/Codeless.WaterpipeSharp/Internal/BuiltInPipeFunction.cs:174-187 | `replace` only moves the cursor of the context and always yields a value |
| PipeSpec.Call | src/Codeless.WaterpipeSharp/PipeContext.cs:138-140 | a call keeps the input and value of the context; only built-in, host and `%` format functions can throw |
| PipeSpec.PipeCall | src/Codeless.WaterpipeSharp/Internal/BuiltInPipeFunction.cs:27-30 | `|` keeps the value and always yields a result |
| PipeSpec.LogicCall | src/Codeless.WaterpipeSharp/Internal/BuiltInPipeFunction.cs:33-40 | `&&` and `||` keep the value and always yield a result |
| PipeSpec.AsCall | src/Codeless.WaterpipeSharp/Internal/BuiltInPipeFunction.cs:44-47 | `as` keeps the value and always yields a result |
| PipeSpec.LetCall | src/Codeless.WaterpipeSharp/Internal/BuiltInPipeFunction.cs:49-55 | `let` keeps the value and always yields a result |
| PipeSpec.NotCall | src/Codeless.WaterpipeSharp/Internal/BuiltInPipeFunction.cs:134-136 | `!` keeps the value and always yields a result |
| PipeSpec.InCall | src/Codeless.WaterpipeSharp/Internal/BuiltInPipeFunction.cs:523-526 | `in` keeps the value and always yields a result |
| PipeSpec.NativeCall | src/Codeless.WaterpipeSharp/PipeFunction.cs:244-306 | a built-in function's call keeps the input and value of the context |
| PipeSpec.HostCall | src/Codeless.WaterpipeSharp/PipeFunction.cs:244-306 | a host function's call keeps the input and value of the context, and the counter stays within 16 bits |
| PipeSpec.Step | src/Codeless.WaterpipeSharp/PipeContext.cs:134-160 | each turn moves the cursor forward, keeps the frames and every earlier error, and keeps the input |
| PipeSpec.StepFound | src/Codeless.WaterpipeSharp/PipeContext.cs:137-159 | a turn whose name resolves calls the function on the next argument; its result becomes the value, or a throw is recorded over the arguments it took |
| PipeSpec.Run | src/Codeless.WaterpipeSharp/PipeContext.cs:134-160 | the loop ends with the cursor just past the end of the range |
| PipeSpec.RunStep | src/Codeless.WaterpipeSharp/PipeContext.cs:134 | the loop is one turn followed by the rest of the loop |
| PipeSpec.Drive | src/Codeless.WaterpipeSharp/PipeContext.cs:133-165 | after the reset and the loop, the cursor is past the end of the range |
| PipeSpec.Evaluate | src/Codeless.WaterpipeSharp/PipeContext.cs:130-166 | evaluating a pipe context leaves the frames as they were, keeps every earlier error and keeps the counter within 16 bits |
| PipeSpec.EvaluatePipe | src/Codeless.WaterpipeSharp/Internal/Pipe.cs:31-33 | evaluating a whole pipe leaves the frames as they were, keeps every earlier error and keeps the counter within 16 bits |
| PipeProperties.TakeConstant | src/Codeless.WaterpipeSharp/PipeContext.cs:95-97 | a constant argument yields its literal and consumes exactly one position; nothing else changes |
| PipeProperties.TakeBracketed | src/Codeless.WaterpipeSharp/PipeContext.cs:98-103 | a bracketed argument is run as a lambda over the arguments inside its brackets, on the input at the reset position and on the value elsewhere, and the cursor moves past its closing bracket |
| PipeProperties.TakeConsumes | src/Codeless.WaterpipeSharp/PipeContext.cs:104-110 | away from the reset position an argument is always consumed |
| PipeProperties.ResetLeavesName | src/Codeless.WaterpipeSharp/PipeContext.cs:104-110 | at the reset position, a path argument stays unconsumed exactly when it is automatic and does not resolve, and the input is then the value; otherwise the path's value is taken and the cursor moves by one |
| PipeProperties.TakePastEnd | src/Codeless.WaterpipeSharp/PipeContext.cs:92-94 | past the end, taking yields the input at the reset position and undefined elsewhere, and consumes nothing; a raw take yields undefined |
| PipeProperties.LogicalStops | src/Codeless.WaterpipeSharp/Internal/BuiltInPipeFunction.cs:33-40 | `&&` on a falsy value and `||` on a truthy one keep the value and move the cursor past the end, so no later function runs |
| PipeProperties.StoppedRunsNothing | src/Codeless.WaterpipeSharp/PipeContext.cs:134 | once the cursor is past the end the loop calls nothing, and the result is read from the state as it is |
| PipeProperties.PipePushes | src/Codeless.WaterpipeSharp/Internal/BuiltInPipeFunction.cs:27-30 | `|` appends the current value to the pushed values and takes the next argument at a new reset position |
| PipeProperties.PushedFlattened | src/Codeless.WaterpipeSharp/PipeContext.cs:161-164 | with anything pushed, the pipe's result is one flat array: the pushed values, then the last value, nested arrays expanded |
| PipeProperties.UnknownNameRecorded | src/Codeless.WaterpipeSharp/PipeContext.cs:143-146 | an unknown name away from the reset position sets the value to undefined, records an error highlighting that argument, and the loop goes on |
| PipeProperties.UnknownAtResetSilent | src/Codeless.WaterpipeSharp/PipeContext.cs:141-142 | an unknown name at the reset position yields its constant, or undefined, and records nothing |
| PipeProperties.FailedCallRecorded | src/Codeless.WaterpipeSharp/PipeContext.cs:147-158 | a function that throws leaves the value as it was and records an error over the name and the arguments it took |
| PipeProperties.AsStores | src/Codeless.WaterpipeSharp/Internal/BuiltInPipeFunction.cs:44-47 | `as` stores the current value in the global named by the next raw argument, and returns the value |
| PipeProperties.LetConsumesRest | src/Codeless.WaterpipeSharp/Internal/BuiltInPipeFunction.cs:49-55 | `let` consumes every remaining argument and yields undefined |
| PipeProperties.TestConstants | src/Codeless.WaterpipeSharp/Internal/BuiltInPipeFunction.cs:154-159 | `?` over three constants picks the second when the first is truthy, else the third, and consumes the three |
| PipeProperties.ReplaceBySelf | src/Codeless.WaterpipeSharp/Internal/BuiltInPipeFunction.cs:188-193 | replacing a plain needle by itself gives the text back |
| PipeProperties.ConstantPipe | src/Codeless.WaterpipeSharp/PipeContext.cs:130-166 | a pipe of one constant evaluates to its literal and changes nothing |
| PipeProperties.PathPipe | src/Codeless.WaterpipeSharp/PipeContext.cs:130-166 | a pipe of one word whose path resolves evaluates to the path's value and changes nothing |
| PipeProperties.UnknownWordPipe | src/Codeless.WaterpipeSharp/PipeContext.cs:130-166 | a pipe of one word that is neither a resolvable path nor a function name evaluates to undefined and records no error |
| BuiltIns.MoreIsSwappedLess | src/Codeless.WaterpipeSharp/Internal/BuiltInPipeFunction.cs:59-77 | when no null is involved, `>` is `<` with the operands swapped, and `>=` is `<=` swapped |
| BuiltIns.BetweenItself | src/Codeless.WaterpipeSharp/Internal/BuiltInPipeFunction.cs:79-81 | every value lies between itself and itself |
| BuiltIns.EqualsEquivalence | src/Codeless.WaterpipeSharp/Internal/BuiltInPipeFunction.cs:83-91 | `==` is reflexive, symmetric and transitive, and `!=` is exactly its negation |
| BuiltIns.EqualsNumbers | src/Codeless.WaterpipeSharp/Internal/BuiltInPipeFunction.cs:83-91 | two numbers are `==` exactly when they are the same number; a number and a string are `==` exactly when the string is the number's decimal text, which then reads back as the number; `!=` denies that |
| BuiltIns.StartsWith | src/Codeless.WaterpipeSharp/Internal/BuiltInPipeFunction.cs:103-107 | `^=` holds exactly when the needle's string form is non-empty and begins the string |
| BuiltIns.EndsWith | src/Codeless.WaterpipeSharp/Internal/BuiltInPipeFunction.cs:109-113 | `$=` holds exactly when the needle's string form is non-empty and ends the string |
| BuiltIns.AffixesMatch | src/Codeless.WaterpipeSharp/Internal/BuiltInPipeFunction.cs:103-113 | a string starts with each of its non-empty prefixes and ends with each of its non-empty suffixes; the empty needle never matches |
| BuiltIns.EvenOrOdd | src/Codeless.WaterpipeSharp/Internal/BuiltInPipeFunction.cs:115-121 | every value is exactly one of even and odd, a negative odd number included |
| BuiltIns.ConditionalsChoose | src/Codeless.WaterpipeSharp/Internal/BuiltInPipeFunction.cs:140-151 | `or` is truthy when either side is; `??` is null or undefined only when both sides are; `or` is `choose` with the first value as condition |
| BuiltIns.Substr | src/Codeless.WaterpipeSharp/Internal/BuiltInPipeFunction.cs:167-172 | `substr` succeeds exactly when the start lies in the string and the length, if given, stays within it; the result then occurs in the string at the start |
| BuiltIns.SubstrAfterConcat | src/Codeless.WaterpipeSharp/Internal/BuiltInPipeFunction.cs:167-170 | taking the rest after a concatenated prefix gives back the suffix |
| BuiltIns.ConcatAffixes | src/Codeless.WaterpipeSharp/Internal/BuiltInPipeFunction.cs:163-165 | `concat` gives a string that starts with the value's string form and ends with the argument's, as long as the two together |
| BuiltIns.RemoveStart | src/Codeless.WaterpipeSharp/Internal/BuiltInPipeFunction.cs:220-224 | the result is no longer than the string, and differs from it only by dropping a leading occurrence of the needle |
| BuiltIns.RemoveEnd | src/Codeless.WaterpipeSharp/Internal/BuiltInPipeFunction.cs:226-230 | the result is no longer than the string, and differs from it only by dropping a trailing occurrence of the needle |
| BuiltIns.NonStringNeedleKeeps | src/Codeless.WaterpipeSharp/Internal/BuiltInPipeFunction.cs:220-230 | a needle that is not a string never matches, so `removestart` and `removeend` return the text unchanged |
| BuiltIns.RemoveStartThrows | src/Codeless.WaterpipeSharp/Internal/BuiltInPipeFunction.cs:220-230 | a needle longer than the string throws in the `removestart` as written, but leaves the string alone in `removeend` and in the corrected `removestart` |
| BuiltIns.RemoveStartAgrees | src/Codeless.WaterpipeSharp/Internal/BuiltInPipeFunction.cs:220-224 | where the written `removestart` does not throw, it agrees with the corrected one |
| BuiltIns.RemoveConcatenated | src/Codeless.WaterpipeSharp/Internal/BuiltInPipeFunction.cs:220-230 | removing a prefix or a suffix that was concatenated on gives back the rest |
| BuiltIns.LastIndexOf | src/Codeless.WaterpipeSharp/Internal/BuiltInPipeFunction.cs:245 | the ordinal last occurrence of a non-empty needle, or none when there is none; an empty needle gives the last position |
| BuiltIns.LastIndexFrom | src/Codeless.WaterpipeSharp/Internal/BuiltInPipeFunction.cs:245 | the backward search from a position finds the nearest occurrence at or before it, or none |
| BuiltIns.LastIndexOfBounded | src/Codeless.WaterpipeSharp/Internal/BuiltInPipeFunction.cs:265-267 | the last occurrence is one after which the needle fits in the string |
| BuiltIns.CutAroundFirst | src/Codeless.WaterpipeSharp/Internal/BuiltInPipeFunction.cs:232-260 | the text before the first occurrence, the needle and the text after it rebuild the string, and the text before holds no occurrence; without an occurrence both cuts give the string |
| BuiltIns.CutAroundLast | src/Codeless.WaterpipeSharp/Internal/BuiltInPipeFunction.cs:242-270 | the text before the last occurrence, the needle and the text after it rebuild the string, and no occurrence starts later; without an occurrence both cuts give the string |
| BuiltIns.SplitOn | src/Codeless.WaterpipeSharp/Internal/BuiltInPipeFunction.cs:272-274 | the pieces are non-empty and contain no separator |
| BuiltIns.PieceFree | src/Codeless.WaterpipeSharp/Internal/BuiltInPipeFunction.cs:273 | the text before the first occurrence of the separator holds no occurrence |
| BuiltIns.SplitJoin | src/Codeless.WaterpipeSharp/Internal/BuiltInPipeFunction.cs:272-274 | splitting on one character undoes a join with it, when the pieces are non-empty and free of it |
| BuiltIns.JoinSingle | src/Codeless.WaterpipeSharp/Internal/BuiltInPipeFunction.cs:399-402 | a value that is not an array joins to its own string form |
| BuiltIns.RepeatSpec | src/Codeless.WaterpipeSharp/Internal/BuiltInPipeFunction.cs:276-284 | `repeat` throws exactly when the count is negative and the string non-empty (a negative capacity); otherwise the length is the string's length times the count, or 0 for a count below one |
| BuiltIns.Repeat | src/Codeless.WaterpipeSharp/Internal/BuiltInPipeFunction.cs:276-284 | the loop appends the string as many times as the count, as the specification defines |
| BuiltIns.Length | src/Codeless.WaterpipeSharp/Internal/BuiltInPipeFunction.cs:368-373 | a string gives its length, an array its item count, and a value without a `length` property 0 |
| BuiltIns.KeysOfValue | src/Codeless.WaterpipeSharp/Internal/BuiltInPipeFunction.cs:375-384 | one key per enumerable entry: the positions for an array, the keys as strings for an object |
| BuiltIns.Range | src/Codeless.WaterpipeSharp/Internal/BuiltInPipeFunction.cs:387-397 | the integers from the first bound to the second, in steps of one in either direction, always ending with the second |
| BuiltIns.To | src/Codeless.WaterpipeSharp/Internal/BuiltInPipeFunction.cs:387-397 | the loop adds each integer from the first bound towards the second, then the second, giving the range |
| BuiltIns.Reversed | src/Codeless.WaterpipeSharp/Internal/BuiltInPipeFunction.cs:404-408 | the list in reverse order, element by element |
| BuiltIns.ReverseTwice | src/Codeless.WaterpipeSharp/Internal/BuiltInPipeFunction.cs:404-408 | reversing twice gives the elements back in their order |
| BuiltIns.SkipTake | src/Codeless.WaterpipeSharp/Internal/BuiltInPipeFunction.cs:421 | skipping n and then taking m elements gives the slice from n of length m, clipped to the list, and nothing when n is past the end or m is not positive |
| BuiltIns.Slice | src/Codeless.WaterpipeSharp/Internal/BuiltInPipeFunction.cs:416-422 | the corrected `slice` yields an array no longer than the elements |
| BuiltIns.SliceNegativeEmpty | src/Codeless.WaterpipeSharp/Internal/BuiltInPipeFunction.cs:420-421 | with a negative start, the written `slice` is always empty |
| BuiltIns.SliceFromEnd | src/Codeless.WaterpipeSharp/Internal/BuiltInPipeFunction.cs:416-422 | the corrected `slice` with start -k and a count of at least k gives the last k elements |
| BuiltIns.SliceAgrees | src/Codeless.WaterpipeSharp/Internal/BuiltInPipeFunction.cs:416-422 | the written and the corrected `slice` agree on non-negative starts |
| BuiltIns.UniqueFrom | src/Codeless.WaterpipeSharp/Internal/BuiltInPipeFunction.cs:493-499 | no more elements are kept than given |
| BuiltIns.StringsOfCons | src/Codeless.WaterpipeSharp/Internal/BuiltInPipeFunction.cs:494 | the string forms of a list are the first one's form together with the rest's |
| BuiltIns.UniqueFromForms | src/Codeless.WaterpipeSharp/Internal/BuiltInPipeFunction.cs:493-499 | `unique` keeps exactly the string forms not seen before |
| BuiltIns.UniqueFromDistinct | src/Codeless.WaterpipeSharp/Internal/BuiltInPipeFunction.cs:493-499 | `unique` never keeps two elements with the same string form |
| BuiltIns.Unique | src/Codeless.WaterpipeSharp/Internal/BuiltInPipeFunction.cs:489-503 | the loop over an array keeps the first element of each string form, in order, and a non-array becomes a one-element array |
| BuiltIns.InCollection | src/Codeless.WaterpipeSharp/Internal/BuiltInPipeFunction.cs:523-526 | `in` holds for an array exactly when the value is among its items, and never for a value that is neither array nor object |
| BuiltIns.Apply | src/Codeless.WaterpipeSharp/Internal/BuiltInPipeFunction.cs:59-503 | only `substr` and `repeat` can throw |
| BuiltIns.Call | src/Codeless.WaterpipeSharp/Internal/BuiltInPipeFunction.cs:59-503 | invoking a built-in, with its loops run as methods, gives the result the specification functions define |
| StdIO.Scan | src/Codeless.WaterpipeSharp/Internal/StdIO.cs:12 | a directive is read only where the text starts with `%` and holds at least the specifier after it |
| StdIO.ScanSound | src/Codeless.WaterpipeSharp/Internal/StdIO.cs:12 | what the pattern reads is a well-formed directive (flag characters, digits, optional `.digits`, optional `h`/`l`, a specifier) and the characters it consumed spell exactly that directive |
| StdIO.ScanSpelling | src/Codeless.WaterpipeSharp/Internal/StdIO.cs:12 | every well-formed directive is read back whole from its own spelling, whatever text follows it (the greedy pattern never stops early) |
| StdIO.FindBy | src/Codeless.WaterpipeSharp/Internal/StdIO.cs:287 | a search from position `k` reports only a position at or after `k`, inside the buffer, where a match starts |
| StdIO.FindByLeftmost | src/Codeless.WaterpipeSharp/Internal/StdIO.cs:287 | no position between the search start and the reported match starts a match: the match found is the leftmost |
| StdIO.FindBySuffix | src/Codeless.WaterpipeSharp/Internal/StdIO.cs:287 | searching the buffer from `pos + k` finds the same match as searching its suffix at `pos` from `k`, shifted by `pos` |
| StdIO.Find | src/Codeless.WaterpipeSharp/Internal/StdIO.cs:34 | the position where the pattern matches next lies at or after the start and begins a well-formed directive |
| StdIO.Wrap | src/Codeless.WaterpipeSharp/Internal/StdIO.cs:112-130 | an unchecked cast yields a value the target integer type can hold |
| StdIO.WrapSameBits | src/Codeless.WaterpipeSharp/Internal/StdIO.cs:112-130 | an unchecked cast keeps the low bits: the result is congruent to the input modulo `2^bits` |
| StdIO.WrapKeeps | src/Codeless.WaterpipeSharp/Internal/StdIO.cs:121-130 | a cast to a type that already holds the value leaves it unchanged |
| StdIO.IntValue | src/Codeless.WaterpipeSharp/Internal/StdIO.cs:110 | a boxed integer parameter always holds a value within its own type's range |
| StdIO.SizeRules | src/Codeless.WaterpipeSharp/Internal/StdIO.cs:107-131 | only integer parameters change: `h` narrows 32- and 64-bit integers to the low 16 bits (signed or unsigned), `l` widens 16- and 32-bit integers to 64 bits keeping the value, anything else is passed as it is |
| StdIO.FlagRules | src/Codeless.WaterpipeSharp/Internal/StdIO.cs:36-103 | the layout of a directive: `-` left-aligns, `+` shows a plus sign and overrides the space flag, the width is the digits given, padding is `0` exactly when the width starts with `0` and `-` is absent, precision defaults to 6 except for `%s` and `%c`, and a width or precision beyond `int` throws |
| StdIO.Fill | src/Codeless.WaterpipeSharp/Internal/StdIO.cs:208-210 | the run of pad characters has exactly the length asked for |
| StdIO.PadLeftTo | src/Codeless.WaterpipeSharp/Internal/StdIO.cs:210 | left padding produces the larger of the width and the text's length |
| StdIO.PadLeftKeeps | src/Codeless.WaterpipeSharp/Internal/StdIO.cs:210 | left padding keeps the text at the end and puts only pad characters before it |
| StdIO.PadRightTo | src/Codeless.WaterpipeSharp/Internal/StdIO.cs:208 | right padding produces the larger of the width and the text's length |
| StdIO.PadRightKeeps | src/Codeless.WaterpipeSharp/Internal/StdIO.cs:208 | right padding keeps the text at the start and puts only pad characters after it |
| StdIO.PadLeft | src/Codeless.WaterpipeSharp/Internal/StdIO.cs:442 | `PadLeft` throws exactly when the width is negative and otherwise pads on the left |
| StdIO.BaseDigits | src/Codeless.WaterpipeSharp/Internal/StdIO.cs:434 | the base-8 or base-16 digits of a number are never empty and are `0` exactly for zero |
| StdIO.BaseDigitsRoundTrip | src/Codeless.WaterpipeSharp/Internal/StdIO.cs:434 | reading the octal or hexadecimal digits back gives the number |
| StdIO.DigitRoundTrip | src/Codeless.WaterpipeSharp/Internal/StdIO.cs:463 | each digit character reads back as the digit value it was made from, in either case |
| StdIO.PlaceNumber | src/Codeless.WaterpipeSharp/Internal/StdIO.cs:497-501 | with left alignment or space padding, a non-negative number gets its `+` or space sign and the whole is aligned to the width with spaces |
| StdIO.ZeroPadded | src/Codeless.WaterpipeSharp/Internal/StdIO.cs:502-514 | with zero padding the result is the sign, then zeros, then the digits, exactly as wide as the larger of the width and sign plus digits |
| StdIO.PlaceNumberAgrees | src/Codeless.WaterpipeSharp/Internal/StdIO.cs:502-514 | wherever the digits are narrower than the width, the placement as written and the corrected one agree |
| StdIO.ZeroPaddingOverflows | src/Codeless.WaterpipeSharp/Internal/StdIO.cs:505-511 | `%05d` of 12345 gives six characters as written, where the corrected placement gives `12345` |
| StdIO.Truncate | src/Codeless.WaterpipeSharp/Internal/StdIO.cs:203-204 | the `%s` precision keeps a prefix of the text, of the precision's length or the whole text if shorter |
| StdIO.TruncateThrows | src/Codeless.WaterpipeSharp/Internal/StdIO.cs:203-204 | `%.5s` of `abc` throws as written, where `abc` was meant |
| StdIO.TruncateAgrees | src/Codeless.WaterpipeSharp/Internal/StdIO.cs:203-204 | wherever the text is at least as long as the precision, the cut as written and the corrected one agree |
| StdIO.Next | src/Codeless.WaterpipeSharp/Internal/StdIO.cs:287 | a match found in the rest of the buffer splits it into the text before, the two or more characters matched, and the text after |
| StdIO.NextSound | src/Codeless.WaterpipeSharp/Internal/StdIO.cs:287 | the match is the leftmost directive, read by the scanner and spelled by the characters matched |
| StdIO.NextAt | src/Codeless.WaterpipeSharp/Internal/StdIO.cs:287 | the regular expression's search from `pos` succeeds exactly when a match exists in the suffix at `pos`, and at that match's offset |
| StdIO.NextAdvances | src/Codeless.WaterpipeSharp/Internal/StdIO.cs:287 | each match leaves strictly less text after it than it was given, and the three parts rebuild the text |
| StdIO.Splice | src/Codeless.WaterpipeSharp/Internal/StdIO.cs:285-286 | removing the matched characters and inserting the rendering leaves the untouched prefix, the rendering, and the text after the match |
| StdIO.Step | src/Codeless.WaterpipeSharp/Internal/StdIO.cs:285-287 | one turn of the loop: the buffer after the splice, the search position moved past the inserted text, the next parameter index when the specifier consumes one, and the loop invariant kept |
| StdIO.FormatUnfold | src/Codeless.WaterpipeSharp/Internal/StdIO.cs:280-287 | where a directive is found and rendered, the result is the text before it, its rendering, and the formatting of the rest |
| StdIO.FormatThrows | src/Codeless.WaterpipeSharp/Internal/StdIO.cs:136-278 | where rendering a directive throws, the whole formatting throws |
| StdIO.FormatDone | src/Codeless.WaterpipeSharp/Internal/StdIO.cs:35 | where no directive is found, the rest of the buffer is kept as it is |
| StdIO.LoopStep | src/Codeless.WaterpipeSharp/Internal/StdIO.cs:285-287 | the formatting of the whole format string equals what was written so far followed by the formatting of the buffer after the match, one turn further on |
| StdIO.Sprintf | src/Codeless.WaterpipeSharp/Internal/StdIO.cs:9-291 | the method's result is the recursive formatting of the format string from position 0 and parameter 0, or an exception |
| StdIO.FormatPlain | src/Codeless.WaterpipeSharp/Internal/StdIO.cs:33-35 | a format string without `%` comes out unchanged |
| StdIO.NextAtStart | src/Codeless.WaterpipeSharp/Internal/StdIO.cs:287 | a well-formed directive at the start of the text is the next match, spanning exactly its own spelling |
| StdIO.FormatAtStart | src/Codeless.WaterpipeSharp/Internal/StdIO.cs:280-287 | formatting text that starts with a directive renders that directive and continues after it, or throws when the rendering throws |
| StdIO.RenderPercent | src/Codeless.WaterpipeSharp/Internal/StdIO.cs:138-140 | `%%` becomes a percent sign and consumes no parameter |
| StdIO.RenderPosition | src/Codeless.WaterpipeSharp/Internal/StdIO.cs:267-272 | `%n` becomes the position of the directive in the buffer and consumes no parameter |
| StdIO.RenderString | src/Codeless.WaterpipeSharp/Internal/StdIO.cs:200-212 | `%s` of a string inserts the string unchanged and consumes the parameter |
| StdIO.RenderDecimal | src/Codeless.WaterpipeSharp/Internal/StdIO.cs:143-149 | `%d` of an integer inserts its decimal text and consumes the parameter |
| StdIO.InsertedTextKept | src/Codeless.WaterpipeSharp/Internal/StdIO.cs:280-287 | inserted text is not scanned again: `%s` of a string full of directives yields that string |
| StdIO.NumericWithoutNumber | src/Codeless.WaterpipeSharp/Internal/StdIO.cs:491 | a numeric specifier applied to a non-number renders nothing but still consumes the parameter |
| StdIO.MissingParameter | src/Codeless.WaterpipeSharp/Internal/StdIO.cs:180-204 | past the last parameter `%c` renders nothing while `%s` and `%u` throw |
| StdIO.RenderStringCase | src/Codeless.WaterpipeSharp/Internal/StdIO.cs:200-212 | `%s` renders by the string layout of its directive |
| StdIO.RenderHexCase | src/Codeless.WaterpipeSharp/Internal/StdIO.cs:164-177 | `%x` and `%X` render the parameter's value through the hexadecimal placement |
| StdIO.RenderOctCase | src/Codeless.WaterpipeSharp/Internal/StdIO.cs:156-161 | `%o` renders the parameter's value through the octal placement |
| StdIO.StringLayout | src/Codeless.WaterpipeSharp/Internal/StdIO.cs:200-212 | `%s` of a string: the text is cut to the precision, the result is as wide as the larger of the width and the cut, and the cut stands at the start (left-aligned) or the end with only pad characters beside it |
| StdIO.StringPadding | src/Codeless.WaterpipeSharp/Internal/StdIO.cs:201-210 | the `%s` text of a string has that shape for any layout |
| StdIO.HexDigits | src/Codeless.WaterpipeSharp/Internal/StdIO.cs:451-478 | `%x` and `%X` without flags or width give hexadecimal digits that read back as the parameter's two's complement bits at its type's width |
| StdIO.OctalDigits | src/Codeless.WaterpipeSharp/Internal/StdIO.cs:425-449 | `%o` without flags or width gives octal digits that read back as the parameter's 64-bit two's complement bits |
| Contexts.Views | src/Codeless.WaterpipeSharp/Internal/EvaluationContext.cs:20 | the frames as paths see them: one view per frame, in the same order, innermost first |
| Contexts.ViewsCons | src/Codeless.WaterpipeSharp/Internal/EvaluationContext.cs:76-78 | a frame pushed on top adds its own view in front of the views below |
| Contexts.ViewsTail | src/Codeless.WaterpipeSharp/Internal/EvaluationContext.cs:85-87 | popping the top frame drops exactly its view |
| Contexts.ScopeOfViews | src/Codeless.WaterpipeSharp/Internal/EvaluationContext.cs:69-74 | the scope a path is evaluated in is the frames' views with the globals' entries |
| Contexts.NewEntryFrame | src/Codeless.WaterpipeSharp/Internal/EvaluationContext.cs:80-83 | the frame built for an entry is over the one-entry object `{ index: obj }`, already moved onto that entry |
| Contexts.EvaluationContext.Env | src/Codeless.WaterpipeSharp/Internal/EvaluationContext.cs:57-59 | the pipes see the context's template text and its registry's resolvers and functions |
| Contexts.EvaluationContext.World | src/Codeless.WaterpipeSharp/Internal/EvaluationContext.cs:49-67 | the state a pipe sees is the frames' views, the globals' entries, the errors recorded and the evaluation counter |
| Contexts.EvaluationContext.constructor | src/Codeless.WaterpipeSharp/Internal/EvaluationContext.cs:40-47 | a new context copies the globals, records no error, and holds one frame over the data, not yet moved |
| Contexts.EvaluationContext.ValueAt | src/Codeless.WaterpipeSharp/Internal/EvaluationContext.cs:69-74 | `ValueAt(i)` is the value of the `i`-th frame from the top, or undefined past the bottom |
| Contexts.EvaluationContext.Push | src/Codeless.WaterpipeSharp/Internal/EvaluationContext.cs:76-78 | pushing a value adds a fresh unmoved frame over it on top, and nothing else changes |
| Contexts.EvaluationContext.PushEntry | src/Codeless.WaterpipeSharp/Internal/EvaluationContext.cs:80-83 | pushing an entry adds a frame over `{ index: obj }` moved onto its one entry, and nothing else changes |
| Contexts.EvaluationContext.Pop | src/Codeless.WaterpipeSharp/Internal/EvaluationContext.cs:85-87 | popping drops the top frame, and nothing else changes |
| Contexts.EvaluationContext.AddException | src/Codeless.WaterpipeSharp/Internal/EvaluationContext.cs:89-91 | recording an error appends it to the errors, and nothing else changes |
| Contexts.EvaluationContext.AddRuns | src/Codeless.WaterpipeSharp/Internal/EvaluationContext.cs:191 | the evaluation counter advances by the number of runs modulo 65536, the `& 0xFFFF` of the source |
| Contexts.EvaluationContext.SetGlobal | src/Codeless.WaterpipeSharp/Internal/BuiltInPipeFunction.cs:45 | assigning a global changes only that key of the globals |
| Contexts.EvaluationContext.EvaluatePath | src/Codeless.WaterpipeSharp/Internal/ObjectPath.cs:95-142 | evaluating a path against the context is evaluating it in the context's scope |
| Contexts.EvaluationContext.ResolveFunction | src/Codeless.WaterpipeSharp/Internal/EvaluationContext.cs:93-96 | resolving a name walks the resolvers in order, the registered functions first |
| RunSpec.CursorViews | src/Codeless.WaterpipeSharp/Internal/EvaluationContext.cs:20 | the frames as paths see them: one view per frame, in order |
| RunSpec.ViewsUpTo | src/Codeless.WaterpipeSharp/Internal/EvaluationContext.cs:69-74 | the views of the first `n` frames, in order |
| RunSpec.WorldOf | src/Codeless.WaterpipeSharp/Internal/EvaluationContext.cs:49-67 | the context a pipe sees has as many frames as the machine and the machine's globals, errors and counter |
| RunSpec.Start | src/Codeless.WaterpipeSharp/Internal/EvaluationContext.cs:117-131 | a run starts at token 0 with no text, no error and one frame over the data, in string mode exactly when raw output is not asked for |
| RunSpec.EvalPipe | src/Codeless.WaterpipeSharp/Internal/EvaluationContext.cs:137 | evaluating a token's pipe changes only the globals, the errors and the counter of the machine |
| RunSpec.EvalStep | src/Codeless.WaterpipeSharp/Internal/EvaluationContext.cs:134-151 | an evaluate token's value becomes the result, and the cursor and frames are as the pipe left them |
| RunSpec.IterStep | src/Codeless.WaterpipeSharp/Internal/EvaluationContext.cs:152-158 | an iteration token pushes exactly one new frame over its value and changes neither the output nor the result |
| RunSpec.IterEndStep | src/Codeless.WaterpipeSharp/Internal/EvaluationContext.cs:159-166 | an iteration-end token changes only the frames and the cursor |
| RunSpec.TestStep | src/Codeless.WaterpipeSharp/Internal/EvaluationContext.cs:167-172 | a condition token changes only the cursor, after what its pipe did |
| RunSpec.AfterSpace | src/Codeless.WaterpipeSharp/Internal/EvaluationContext.cs:176-178 | after a space token the pending white space is one space or none |
| RunSpec.Emit | src/Codeless.WaterpipeSharp/Internal/EvaluationContext.cs:179-187 | an output token switches to string mode, keeps cursor, frames, result and counter, and leaves empty pending space after a trim at the end, none otherwise |
| RunSpec.Step | src/Codeless.WaterpipeSharp/Internal/EvaluationContext.cs:131-189 | every step of the loop keeps at least one frame, each in a frame state |
| RunSpec.StepEvaluate | src/Codeless.WaterpipeSharp/Internal/EvaluationContext.cs:134-151 | on an evaluate token the step evaluates the pipe with the cursor past the token and writes the value |
| RunSpec.StepCondition | src/Codeless.WaterpipeSharp/Internal/EvaluationContext.cs:167-172 | on a condition token the step evaluates the pipe with the cursor past the token and jumps or not by its truth |
| RunSpec.StepCases | src/Codeless.WaterpipeSharp/Internal/EvaluationContext.cs:131-189 | the step on each kind of token: evaluate, iterate, end of iteration, test, branch to the target, space, and text or markup output |
| RunSpec.Finish | src/Codeless.WaterpipeSharp/Internal/EvaluationContext.cs:190-192 | the `finally` block adds one to the counter exactly when the run ended in string mode, kept below 65536, and changes nothing else |
| RunSpec.Continue | src/Codeless.WaterpipeSharp/Internal/EvaluationContext.cs:131-189 | the run after one step keeps the machine in a good state |
| RunSpec.Run | src/Codeless.WaterpipeSharp/Internal/EvaluationContext.cs:123-197 | a run with any fuel ends in a machine that keeps at least one frame in a frame state |
| Interpreter.Cursors | src/Codeless.WaterpipeSharp/Internal/EvaluationContext.cs:20 | the states of the frames, one per frame, top first |
| Interpreter.CursorsCons | src/Codeless.WaterpipeSharp/Internal/EvaluationContext.cs:76-78 | a frame pushed on top adds its own state in front of the others |
| Interpreter.MachineOf | src/Codeless.WaterpipeSharp/Internal/EvaluationContext.cs:123-131 | a valid context with the loop's locals is a machine with at least one frame, each in a frame state |
| Interpreter.WorldOfContext | src/Codeless.WaterpipeSharp/Internal/EvaluationContext.cs:123-131 | the machine the loop stands for shows pipes exactly the context they see through the evaluation context |
| Interpreter.RunPipe | src/Codeless.WaterpipeSharp/Internal/Pipe.cs:31-33 | evaluating a token's pipe leaves the frames in place and changes the context as the pipe semantics says |
| Interpreter.PipeMachine | src/Codeless.WaterpipeSharp/Internal/EvaluationContext.cs:137 | a pipe leaves the frames and the loop's locals as they were, and the machine as the pipe step says |
| Interpreter.WriteValue | src/Codeless.WaterpipeSharp/Internal/EvaluationContext.cs:138-150 | a null or undefined value writes nothing; any other value decides the mode (raw value if undecided, otherwise string), writes the pending white space and its text (escaped unless nested or unencoded), and clears the pending white space |
| Interpreter.EvaluatedMachine | src/Codeless.WaterpipeSharp/Internal/EvaluationContext.cs:134-151 | the state after an evaluate token is the pipe's state with the locals that writing the value computed |
| Interpreter.EvaluateToken | src/Codeless.WaterpipeSharp/Internal/EvaluationContext.cs:134-151 | the evaluate case changes the context and locals exactly as the evaluate step of the machine |
| Interpreter.MoveTop | src/Codeless.WaterpipeSharp/Internal/EvaluationContext.cs:155 | `MoveNext` on the top frame moves it as the cursor step says and leaves the frames below alone |
| Interpreter.PushFrame | src/Codeless.WaterpipeSharp/Internal/EvaluationContext.cs:154 | a fresh frame over the value is pushed on top, unmoved, and nothing else changes |
| Interpreter.PushAndMove | src/Codeless.WaterpipeSharp/Internal/EvaluationContext.cs:154-155 | a fresh frame over the value is pushed and moved once, and the frames below keep their states |
| Interpreter.IterationToken | src/Codeless.WaterpipeSharp/Internal/EvaluationContext.cs:152-158 | the iteration case pushes one fresh frame and changes the state exactly as the iteration step |
| Interpreter.PopFrame | src/Codeless.WaterpipeSharp/Internal/EvaluationContext.cs:85-87 | popping drops the top frame's state and keeps the others |
| Interpreter.IterationEndToken | src/Codeless.WaterpipeSharp/Internal/EvaluationContext.cs:159-166 | the iteration-end case moves the top frame and jumps back, or pops it, exactly as the iteration-end step, reporting when it pops the last frame |
| Interpreter.ConditionToken | src/Codeless.WaterpipeSharp/Internal/EvaluationContext.cs:167-172 | the test case changes the cursor exactly as the test step, after what its pipe did |
| Interpreter.WriteText | src/Codeless.WaterpipeSharp/Internal/EvaluationContext.cs:179-187 | an output token writes the pending white space unless it trims at its start, then its text; the pending white space becomes empty after a trim at its end, none otherwise |
| Interpreter.StepOnce | src/Codeless.WaterpipeSharp/Internal/EvaluationContext.cs:132-188 | one iteration of the loop (take the token, move past it, switch on its type) changes the context and the locals exactly as one step of the machine |
| Interpreter.EvalTokenStep | src/Codeless.WaterpipeSharp/Internal/EvaluationContext.cs:134-151 | the `OP_EVAL` case is one step of the machine, past the token |
| Interpreter.TestTokenStep | src/Codeless.WaterpipeSharp/Internal/EvaluationContext.cs:167-172 | the `OP_TEST` case is one step of the machine |
| Interpreter.LoopStep | src/Codeless.WaterpipeSharp/Internal/EvaluationContext.cs:152-166 | the `OP_ITER` and `OP_ITER_END` cases are one step of the machine |
| Interpreter.TextStep | src/Codeless.WaterpipeSharp/Internal/EvaluationContext.cs:173-187 | the jump, space and output cases are one step of the machine |
| Interpreter.RunOnce | src/Codeless.WaterpipeSharp/Internal/EvaluationContext.cs:131-189 | a run that takes a step continues from the new machine with one step less, or ends when the last frame is popped |
| Interpreter.Advance | src/Codeless.WaterpipeSharp/Internal/EvaluationContext.cs:131-189 | one iteration of the loop carries a run of the machine from the old state onto the rest of that run from the new state |
| Interpreter.CountRun | src/Codeless.WaterpipeSharp/Internal/EvaluationContext.cs:190-192 | the `finally` block leaves the context as the machine's `finally` says: one more run counted in string mode, kept to 16 bits |
| Interpreter.Execute | src/Codeless.WaterpipeSharp/Internal/EvaluationContext.cs:123-197 | the loop over the tokens followed by the `finally` block ends as the machine's run from the start state ends, and leaves the context holding that run's final state |
| Interpreter.NewContext | src/Codeless.WaterpipeSharp/Internal/EvaluationContext.cs:40-47 | a new context is valid, with one fresh frame over the data, and is the machine's start state |
| Interpreter.EvaluateTokens | src/Codeless.WaterpipeSharp/Internal/EvaluationContext.cs:114-121 | evaluating a compiled template returns the run's ending and errors, and the counter the run left, below 65536 |
| Interpreter.EvaluateTemplate | src/Codeless.WaterpipeSharp/Internal/EvaluationContext.cs:109-112 | evaluating a template fails exactly when compiling it fails, with the compile error and the counter unchanged; otherwise it returns the run of the compiled program |
| RunProps.FramesKept | src/Codeless.WaterpipeSharp/Internal/EvaluationContext.cs:133-188 | only iteration and iteration-end tokens touch the frames; every other token goes on with the same frames |
| RunProps.ConditionJumps | src/Codeless.WaterpipeSharp/Internal/EvaluationContext.cs:167-172 | a condition token jumps to its target exactly when the truth of its pipe's value equals its negation flag, and otherwise goes to the next token, writing nothing |
| RunProps.NullWritesNothing | src/Codeless.WaterpipeSharp/Internal/EvaluationContext.cs:138 | an evaluate token whose value is null or undefined writes nothing and keeps the mode and the pending white space |
| RunProps.EscapedOutput | src/Codeless.WaterpipeSharp/Internal/EvaluationContext.cs:144-148 | an encoded evaluate token without a nested run writes the pending white space and then text holding no `<`, `>`, `"` or `'`, and decides the mode |
| RunProps.RunGo | src/Codeless.WaterpipeSharp/Internal/EvaluationContext.cs:131-189 | a step that goes on leaves a run with one step less from the new machine |
| RunProps.SpaceStep | src/Codeless.WaterpipeSharp/Internal/EvaluationContext.cs:176-178 | a space token only moves the cursor and updates the pending white space |
| RunProps.SpaceRun | src/Codeless.WaterpipeSharp/Internal/EvaluationContext.cs:176-178 | a run from a space token goes on from the state after it with one step less |
| RunProps.SpacesAfter | src/Codeless.WaterpipeSharp/Internal/EvaluationContext.cs:177 | after two or more space tokens, or one with white space pending that is not empty, one space is pending |
| RunProps.SpacesCollapse | src/Codeless.WaterpipeSharp/Internal/EvaluationContext.cs:176-178 | a run of space tokens collapses to at most one pending space, and the run continues after them |
| RunProps.SpacesShift | src/Codeless.WaterpipeSharp/Internal/EvaluationContext.cs:176-178 | `k` space tokens are the first one followed by `k - 1` more |
| RunProps.StepKeepsStringMode | src/Codeless.WaterpipeSharp/Internal/EvaluationContext.cs:139 | once text has been written the mode stays string |
| RunProps.StringModeStays | src/Codeless.WaterpipeSharp/Internal/EvaluationContext.cs:193-196 | a run started in string mode ends in string mode and returns its text |
| RunProps.StepForward | src/Codeless.WaterpipeSharp/Internal/EvaluationContext.cs:131-189 | in a program whose jumps all go forward, every token but an iteration end moves the cursor strictly forward, at most to the end |
| RunProps.ForwardProgramsFinish | src/Codeless.WaterpipeSharp/Internal/EvaluationContext.cs:131 | a program without loops whose jumps all go forward finishes within as many steps as it has tokens left |
| RunProps.ClosedTemplatesFinish | src/Codeless.WaterpipeSharp/Internal/EvaluationContext.cs:109-121 | a template with all blocks closed and no loop runs to its end within as many steps as it has tokens |
| RunProps.EmptyLoopSkipped | src/Codeless.WaterpipeSharp/Internal/EvaluationContext.cs:152-166 | a `foreach` over nothing pushes a frame, jumps to its iteration end, pops it, and goes on after the loop, two steps later |
| RunProps.EmptyLoopSteps | src/Codeless.WaterpipeSharp/Internal/EvaluationContext.cs:152-166 | the two steps of a loop over nothing: the iteration token pushes an exhausted frame and jumps, the iteration end pops it |
| RunProps.RunTwo | src/Codeless.WaterpipeSharp/Internal/EvaluationContext.cs:131-189 | two steps that go on leave a run with two steps less |

## Left out

- Termination of the interpreter: `RunSpec.Run` takes a fuel bound and reports `OutOfFuel` when it is used up. A template with an unclosed block can loop for ever in the engine.
- `RunSpec.Run`: an iteration-end token that pops the bottom frame ends the run with `PoppedLast`. The engine's stack is then empty and its next access would throw. The model stops there instead of modelling that exception.
- Outside code is passed in as parameters and not modelled:
  - JSON stringification (`Json.Stringify`);
  - the rendering of markup tokens (`HtmlOutputToken` is not part of this model);
  - host pipe functions and resolvers beyond the registry;
  - regular expressions that templates supply (`like`, regex `replace`, `/pattern/flags` needles are split but not compiled);
  - the numeric `ToString` formats printf defers to.
- Floating point: numbers are integers. NaN, infinities, `+x || 0` on non-numbers beyond integer parsing, and the math built-ins (`+ - * / % pow abs round floor ceil max min`) are not modelled. This includes `max`/`min`, which call `EcmaMath.Min` and `EcmaMath.Max` the wrong way round (BuiltInPipeFunction.cs:346-352).
- `~=`, `!~=`, `*=` (`contains`), `upper`, `lower`, `ucfirst`, `lcfirst`, `hyphenate`: these use culture-sensitive comparisons and casing, which the model has no counterpart for.
- `trim`, `trimstart`, `trimend`: .NET's Unicode white-space table is not modelled.
- `padstart`, `padend`: they compare a substring of the text with the raw argument value. Their outcome depends on the runtime's string-to-value equality, which is not modelled.
- `sort`, `sortby`, `groupby`, `sum`, `first`, `any`, `all`, `none`, `where`, `map`: these wrappers choose keys through `DetectKeyLambda` and keep `PipeState`. The collection operations beneath them are modelled in `Extension` and `Comparer`, but the wrappers themselves are not.
- `:date`, `:query`, `:json` formats (FormatDate, FormatQuery, FormatJson): dates, URL encoding and JSON are outside the model.
- printf `f`, `e`, `E`, `g`, `G` (floating point) and `p`; the unwrapping of the argument value.
- Concurrency: the template cache and the registry's concurrent dictionaries are plain maps. The `[ThreadStatic]` run counter is a field of the context. Its `& 0xFFFF` is written `% 65536`.
- Dictionary enumeration order: taken to be insertion order.
- `PipeGlobal`'s parent scope: the field is never assigned in the source, so lookups never reach it, and the model has none.
- `Interpreter.Evaluator` falls back to `Undefined` for a world without frames. This never happens from a well-formed machine; it exists because the evaluator is a total function.
- Prototype-chain properties of values (a string's `length`, inherited members): only own entries are modelled, and strings are not enumerable.
- `PipeFunction.Create` (reflection over method signatures) and the static constructor that registers the built-ins. The built-ins are dispatched by an enumeration instead.
- The `OutputXml` branch of `EvaluatedPipeFunction` is not modelled.
- Waterpipe.cs, EvaluateOptions.cs and Guard.cs (argument null checks) are entry points and guards, not part of this model. Test.cs is not part of this model.
- ConstructStep (`CompileSpec.ConstructStep`), PipeOf (`CompileSpec.PipeOf`) and ConstructMatch (`Compiler.TokenList.ConstructMatch`): each pipe is placed where its text starts (`Constructs.PipeOffset`), the corrected offset of "## Findings". TokenList.cs:74 places it at the first occurrence of the pipe text inside the construct. For `{{if f}}` that is 3 in the source and 5 here. The as-written offset is `Constructs.PipeOffsetAsWritten`, which the compiler does not call.
- TextMatch (`Compiler.TokenList.TextMatch`), TextRound (`Compiler.TokenList.TextRound`) and ParseTextContent (`Compiler.TokenList.ParseTextContent`): opening and closing tags are told apart by `HtmlScan.IsClosingTag`, the corrected test of "## Findings". TokenList.cs:153 takes every tag as closing, so for `<b>` the source runs the closing-tag branch where the model pushes an element.
- Round (`Compiler.TokenList.Round`, `CompileProps.Round`), Parse (`Compiler.TokenList.Parse`), Final (`CompileProps.Final`), Compile (`CompileProps.Compile`), constructor (`Compiler.TokenList.constructor`) and FromString (`Compiler.TemplateCache.FromString`): they compile with both corrections above, so the program they produce differs from the source's on templates with tags or with a pipe text that also occurs in its keyword.
- RemoveStart (`BuiltIns.RemoveStart`): a needle longer than the text leaves the text unchanged, the corrected behaviour of "## Findings". The source throws there (BuiltInPipeFunction.cs:220-224), and the error is recorded against the pipe.
- Slice (`BuiltIns.Slice`): a negative start counts back from the end, the corrected behaviour of "## Findings". The source always gives an empty array then (BuiltInPipeFunction.cs:420): `slice -1 1` of `[1,2,3]` is `[]` in the source and `[3]` here.
- Apply (`BuiltIns.Apply`) and Call (`BuiltIns.Call`): they dispatch the corrected `removestart` and `slice`. Apply's promise that only `substr` and `repeat` can throw holds of the model; in the source `removestart` can throw too.
- Truncate (`StdIO.Truncate`), StringText (`StdIO.StringText`), StringLayout (`StdIO.StringLayout`) and StringPadding (`StdIO.StringPadding`): a `%s` precision beyond the text keeps the whole text, the corrected behaviour of "## Findings". The source throws (StdIO.cs:203-204): `%.5s` of `"abc"`.
- PlaceNumber (`StdIO.PlaceNumber`) and ZeroPadded (`StdIO.ZeroPadded`): zero padding never makes a number wider than the larger of the width and its own text, the corrected behaviour of "## Findings". In the source `%05d` of 12345 gives `"012345"` and `%0d` throws (`PadLeft(-1)`, StdIO.cs:505-511).
- Align (`StdIO.Align`): pads to any width. The source aligns through a composite format item `{0,n}` or `{0,-n}` (StdIO.cs:427-439, 453-468, 482-501), and .NET's `String.Format` throws a FormatException when the alignment reaches its width limit of 1,000,000. So `%99999999d` is a pipe error in the source and a padded number here; PlaceNumber, Render, Format and Sprintf inherit this through Align.
- Render (`StdIO.Render`), Format (`StdIO.Format`) and Sprintf (`StdIO.Sprintf`): they format with the corrected `%s` precision and zero padding above.
- EvaluateTemplate (`Interpreter.EvaluateTemplate`): it compiles and runs with all of the corrections above, so its output differs from the source's on the inputs listed under "## Findings".
- RemoveStart (`BuiltIns.RemoveStart`) and RemoveEnd (`BuiltIns.RemoveEnd`): the model compares the cut-off part with the needle as a value, so a needle that is not a string never matches and the text comes back unchanged (`"12" | removestart 1` gives `"12"`). The source compares them with the runtime's `==` between a string and an EcmaValue (BuiltInPipeFunction.cs:220-230), whose loose conversions are not modelled.
- NumericText (`Values.NumericText`), ToNumber (`Values.ToNumber`) and ParseValue (`Pipes.ParseValue`): only decimal integer text, with an optional sign and surrounding white space, is numeric. The source converts with the runtime's number conversion (PipeArgument.cs:79), which also reads hexadecimal such as `0x10`, fractions and exponents. `0x10` stays a string here and is 16 in the source.
- WordChar (`HtmlScan.WordChar`) and Escape (`Helper.Escape`): `\w` and `\d` are ASCII classes here. The .NET classes are Unicode.
- CodeUnit (`StdIO.CodeUnit`), Substr (`BuiltIns.Substr`) and Get (`Values.Get`): strings are sequences of Unicode scalar values, where the source's are UTF-16. A character outside the Basic Multilingual Plane counts once here and twice in the source for `length`, `substr` indices and string indexing. `%c` of a lone surrogate gives U+FFFD.
- IntOr0 (`BuiltIns.IntOr0`): integers are unbounded. The source's `(int)` casts wrap or truncate in `substr`, `repeat`, `slice` and `..`.
- AtDigits (`Paths.AtDigits`): `@N` is read as any run of ASCII digits. The source's `Int32.Parse` throws on a value beyond 32 bits, and `\d` also admits other Unicode digits.
- RunLambda (`PipeContexts.PipeContext.RunLambda`): each invocation of a bracketed lambda runs a fresh context. The source builds that context once (PipeContext.cs:122) and re-runs it for every element, so values pushed into its return array by one invocation remain for the next.
- InCollection (`BuiltIns.InCollection`): values are compared structurally. The source compares with the runtime's equality, under which distinct objects and arrays are never equal.

## Findings

| source | as written | input that shows it | evidently intended | confidence | as-written member | corrected member |
|---|---|---|---|---|---|---|
| src/Codeless.WaterpipeSharp/Internal/BuiltInPipeFunction.cs:220-224 | `removestart` takes the first needle-length characters of the text before comparing, which throws when the needle is longer than the text | `"ab" \| removestart "abc"` | the text unchanged, as `removeend` gives | not executed | `BuiltIns.RemoveStartThrows` | `BuiltIns.RemoveStartAgrees` |
| src/Codeless.WaterpipeSharp/Internal/BuiltInPipeFunction.cs:420 | a negative start of `slice` becomes `Length - start`, which is beyond the end, so the result is always empty | `slice -1 1` of `[1,2,3]` gives `[]` | count back from the end: `Length + start`, giving `[3]` | not executed | `BuiltIns.SliceNegativeEmpty` | `BuiltIns.SliceFromEnd` |
| src/Codeless.WaterpipeSharp/Internal/StdIO.cs:203-204 | `%.Ns` takes `Substring(0, N)`, which throws when the text is shorter than `N` | `%.5s` of `"abc"` | at most `N` characters: `"abc"` | not executed | `StdIO.TruncateThrows` | `StdIO.TruncateAgrees` |
| src/Codeless.WaterpipeSharp/Internal/StdIO.cs:505-511 | a non-negative number padded with zeros gets the pad character as its sign, even when its digits already fill the width | `%05d` of `12345` gives `"012345"` | `"12345"`, width five | not executed | `StdIO.ZeroPaddingOverflows` | `StdIO.PlaceNumberAgrees` |
| src/Codeless.WaterpipeSharp/Internal/TokenList.cs:153 | `Groups[1].Success` is true for the empty `(\/?)` group, so every tag opening is treated as a closing tag: the element-start branch is unreachable and the markup stack never grows | `<b>` | treat it as a closing tag only when the group matched `/` | not executed | `HtmlScan.OpeningTagReadsAsClosing` | `HtmlScan.ClosingMeansSlash` |
| src/Codeless.WaterpipeSharp/Internal/TokenList.cs:74 | the pipe's offset is the first occurrence of the pipe text within the construct, which can fall inside the keyword | `{{if f}}` gives offset 3 (inside `if`) | offset 5, where the pipe text starts | not executed | `Constructs.PipeOffsetMisplaced` | `Constructs.PipeOffsetExact` |
