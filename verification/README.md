# wasm-shell in Dafny

wasm-shell is a bash-like shell: text is lexed and parsed to a command tree, words are expanded,
commands run against shared output buffers and an in-memory filesystem with host mounts. This
project models that pipeline and proves what it promises. `dafny verify dfyconfig.toml` verifies the
project.

## How it is laid out

| modules | what they hold |
|---|---|
| `Decimal`, `Arith`, `ArithVars` | `$((...))`: tokenizer, Pratt evaluator, the stratified grammar, 64-bit arithmetic in debug and release builds, the minimal-parenthesis printer |
| `Paths`, `Mounts`, `Names`, `VfsTree`, `VfsOps`, `VfsLaws` | path algebra, mount routing over whole registration histories, the tree and the flat map it refines, the `Vfs` class, the laws of its operations |
| `Ast`, `LexSpec`, `LexerObject`, `LexLaws` | the tree, lexing as functions of the remaining text, the `Lexer` class with its cursor, what is skipped |
| `ParseSpec`, `ParserObject` | parsing as functions without lookahead, the `Parser` class with its peek slot, quoting mode, pending heredocs and the shared queue |
| `Print`, `PrintLex`, `PrintTokens`, `PrintParse`, `RoundTrip` | the printer, and the proof that lexing and parsing invert it |
| `Scanners`, `EndToEnd`, `Refusals` | the two delimiter scanners; quoting, brackets, descriptors and arithmetic from text to tree and argument; texts that are refused, and how |
| `Heredocs`, `WordEffects`, `Borrowing`, `HeredocText` | heredoc bodies: collecting and filling in, what words do to the queue, parsing while it is borrowed, commands with heredocs from text to tree |
| `Nesting`, `Reading`, `HeredocQueue` | reading a text token by token without its grammar, that the parser does just that to heredocs, and so which heredoc of any text gets which body |
| `Sem`, `Exec`, `ExecLaws`, `ScopeLaws`, `FdTable`, `Leaks` | what commands mean on values, the executor over shared heap buffers that does exactly that, the laws of lists, pipelines, redirections and scoped assignments, and texts at which state leaks |
| `Values`, `Calls`, `Dispatching`, `Streams` | what words expand to; with which arguments, input and state the text of a command calls its program and what is seen of the answer; what else answers to a name; where input comes from and where output goes |

Code that works step by step is modelled as classes and loops (`Lexer`, `Parser`, `Vfs`, `Shell`,
`VecWriter`, `BytesReader`) and proved against functions; the laws are proved about those functions
and so hold of the classes. The chain is closed from end to end: `Exec.Exec` takes a text, runs the
`Parser` class on it and executes the tree, and its contract speaks about `ParseSpec.Parse` and
`Sem.RunScript` alone.

What the executor calls but does not define is a `World`: which names resolve to programs, what a
program answers (a status, a new state, a list of writes to its two descriptors), what mounts answer,
and whether integer overflow panics or wraps. The theorems hold for every world. The output frame is
in the `modifies` clauses of `Exec`: expansion changes no buffer that existed before, execution only
the two it was given.

## Where the code departs from what one would expect

The code was followed in each case; the members named state exactly what happens.

- An unmatched `)` or `}` ends the parse without an error (`EndToEnd.UnmatchedCloseEndsTheParse`,
  `Reading.WhereParsingStops`).
- `!` in front of a subshell or group is dropped (`EndToEnd.BangIsDropped`).
- Quoted and bare pieces side by side are separate arguments, although the comment in `parse_word`
  speaks of concatenation (`EndToEnd.AdjacentPiecesAreSeparateWords`).
- The lexer's delimiter scanner skips single quotes, the parser's does not (`Scanners.ScannersAgree`).
- An unquoted heredoc body never gets a command substitution. The parse panics when the script in it
  parses, and also when it does not but an inner substitution is complete, or a body collected, before
  its first syntax error; otherwise the whole body stays raw text (`Borrowing.BodyOutcome`,
  `Heredocs.SubstitutionInBody`).
- A command substitution parsed while bodies are waiting throws them away, and the heredocs of the
  script receive the bodies of later ones or none (`HeredocQueue.HeredocsOfEveryText`,
  `HeredocQueue.WhoHasItsOwn`).
- A failed parse leaves collected bodies in the thread's queue, and the next text's heredocs receive
  them (`HeredocText.ErrorLeavesBodies`, `HeredocQueue.WaitingBodiesGoFirst`).
- `**` cuts its exponent to 32 bits (`Arith.ExponentIsTruncated`).
- Scoped assignments are restored in forward order (`ScopeLaws.AssignedTwiceComesBackWrong`), and not
  at all when a value, the name, an argument, a redirection or the writing of a file fails
  (`ScopeLaws.VariablesInEveryCase`, `Leaks.FailedFileLeaksTheAssignment`).
- Descriptors other than 1 and 2 are ignored by redirections, `<>` redirects both 1 and 2, and closing
  does nothing (`FdTable.RedirectionsAgreeExactly`, `FdTable.FinalTableExactly`).
- `rename` detaches before it knows where to (`VfsLaws.RenameIntoItselfLosesIt`).
- A mount at `/` covers only `/` (`Mounts.RootMountCoversOnlyRoot`).
- Resolving through an empty directory name is not resolving the joined path (`Paths.ResolveOfEmpty`).
- A subshell that fails, or exits, leaks its environment and directory
  (`ExecLaws.SubshellRestoresExactlyWhen`, `Leaks.ExitingSubshellLeaks`).

## Model

| member | source | states |
|---|---|---|
| `Arith.TruncDivision` | crates/wasm_shell/src/expand.rs:367-380 | division and remainder truncate toward zero: quotient times divisor plus remainder gives the dividend, and the remainder has its sign |
| `Arith.PrattIsTheGrammar` | crates/wasm_shell/src/expand.rs:313-360 | the binding-power parser finds a tree for a token list exactly when the stratified grammar E/T/F/U derives the list, and the tree it finds is the derivation |
| `Arith.GrammarIsUnambiguous` | crates/wasm_shell/src/expand.rs:313-360 | two derivations of the same tokens are the same |
| `Arith.Associativity` | crates/wasm_shell/src/expand.rs:313-332 | `a op1 b op2 c` groups to the right exactly when op2 binds tighter or both are `**`, for all operands and operators |
| `Arith.EvalAgrees` | crates/wasm_shell/src/expand.rs:313-390 | evaluating while parsing gives the value, or the first failure, of the tree, and stops at the same token |
| `Arith.LoopStrict` | crates/wasm_shell/src/expand.rs:313-332 | once the left operand has failed, every tree the operator loop builds around it fails in the same way, so evaluating may stop there |
| `Arith.ParseExpr` | crates/wasm_shell/src/expand.rs:313-332 | the index-advancing loop returns what the evaluator function returns and leaves the index where its rest starts, overflow in debug and release builds included |
| `Arith.ParsePrefix` | crates/wasm_shell/src/expand.rs:334-360 | the same for signs, numbers and parentheses |
| `Arith.TokenizeArith` | crates/wasm_shell/src/expand.rs:244-301 | the character loop returns the token list, `**` before `*`, numbers that do not fit and other characters as errors |
| `Arith.TokensOfText` | crates/wasm_shell/src/expand.rs:244-301 | writing tokens side by side, where no two clash, and tokenizing gives the tokens back |
| `Arith.SpacedTokens` | crates/wasm_shell/src/expand.rs:244-301 | the same with any spaces and tabs in front of, between and behind the tokens, at least one between two that clash |
| `Arith.StrangeCharacter` | crates/wasm_shell/src/expand.rs:244-301 | the first character that starts no token is refused by name, whatever stands around it |
| `Arith.HugeNumeral` | crates/wasm_shell/src/expand.rs:244-301 | a numeral beyond 64 bits is refused |
| `Arith.ParseArith` | crates/wasm_shell/src/expand.rs:303-311 | the whole evaluator on a text, trailing tokens being an error |
| `Arith.EvaluatorIsTheGrammar` | crates/wasm_shell/src/expand.rs:303-390 | the evaluator answers v exactly when the text is the tokens of a derivable expression whose value is v |
| `Arith.TextOutcome` | crates/wasm_shell/src/expand.rs:303-390 | failures included, the outcome of a text that is an expression is its tree's |
| `Arith.SpacedOutcome` | crates/wasm_shell/src/expand.rs:303-390 | an expression in any spacing and with any parentheses has its tree's value or failure |
| `Arith.TrailingToken` | crates/wasm_shell/src/expand.rs:303-311 | a token behind a whole expression is refused, and the answer names its position |
| `Arith.OpenParenthesis` | crates/wasm_shell/src/expand.rs:334-360 | a parenthesis that is never closed is refused as that |
| `Arith.MissingOperand` | crates/wasm_shell/src/expand.rs:334-360 | an empty text, an operator in front and an operator behind an expression lack an operand |
| `Arith.MachineIsExact` | crates/wasm_shell/src/expand.rs:362-390 | when every intermediate fits 64 bits and exponents are below 2^32 the result is that of unbounded integers |
| `Arith.OverflowLaw` | crates/wasm_shell/src/expand.rs:362-390 | a result out of range aborts a debug build and in a release build is off by a multiple of 2^64, within range |
| `Arith.DivisionLaw` | crates/wasm_shell/src/expand.rs:367-387 | division and remainder by zero have their own errors, the one quotient and remainder that do not fit abort every build, a negative exponent gives 0 |
| `Arith.ExponentIsTruncated` | crates/wasm_shell/src/expand.rs:381-387 | `**` gives the true power exactly when it fits and the exponent is below 2^32, or the base is 1, -1, or 0 with an exponent that is no multiple of 2^32 |
| `Arith.ParenthesizeIsMinimal` | crates/wasm_shell/src/expand.rs:313-360 | no derivable way to parenthesize an expression has fewer parentheses than the printer uses |
| `Arith.ArithmeticRoundTrip` | crates/wasm_shell/src/expand.rs:244-360 | printing an expression over non-negative literals with minimal parentheses, tokenizing and parsing gives the same expression and its value, or its failure |
| `ArithVars.ExpandArithVars` | crates/wasm_shell/src/expand.rs:189-229 | the index loop equals the piecewise replacement of `$name` and `${name}` |
| `ArithVars.NothingToExpand` | crates/wasm_shell/src/expand.rs:189-229 | text without `$` is unchanged |
| `ArithVars.ReferenceIsReplaced` | crates/wasm_shell/src/expand.rs:193-205 | `${name}` behind text without `$` becomes the variable's text, 0 when the environment lacks it, and replacement goes on behind it |
| `ArithVars.NameIsReplaced` | crates/wasm_shell/src/expand.rs:206-221 | `$name` likewise, the name being as long as it can be |
| `ArithVars.OpenReference` | crates/wasm_shell/src/expand.rs:193-205 | `${` that is never closed names everything behind it |
| `ArithVars.LoneDollarStays` | crates/wasm_shell/src/expand.rs:213-216 | a `$` in front of anything else stays |
| `Paths.NormalizePath` | crates/wasm_shell/src/vfs.rs:58-72 | the stack loop renders the canonical component list of the path |
| `Paths.CanonIsCanonical` | crates/wasm_shell/src/vfs.rs:58-72 | no `.`, `..`, empty or slashed component is left |
| `Paths.LastSegment` | crates/wasm_shell/src/vfs.rs:58-72 | an empty segment and a dot do nothing, two dots go one level up and never above the root, a name goes one level down |
| `Paths.CanonRender` | crates/wasm_shell/src/vfs.rs:58-72 | rendering canonical components and normalizing gives them back |
| `Paths.NormalizeIsIdempotent` | crates/wasm_shell/src/vfs.rs:58-72 | normalizing twice is normalizing once |
| `Paths.NormalizeAbsorbs` | crates/wasm_shell/src/vfs.rs:58-72 | normalize(normalize(x)/y) = normalize(x/y) |
| `Paths.ResolveComposes` | crates/wasm_shell/src/vfs.rs:75-80 | resolving b against resolve(c, a) is resolving a/b against c, for non-empty a and relative b |
| `Paths.ResolveStarts` | crates/wasm_shell/src/vfs.rs:75-80 | an absolute path ignores the directory it is resolved against, any other starts there |
| `Paths.ResolveOfEmpty` | crates/wasm_shell/src/vfs.rs:75-80 | for empty a the two agree exactly when b climbs at least as many levels as c has |
| `Paths.ComponentsOfRender` | crates/wasm_shell/src/vfs.rs:83-90 | splitting a rendered path gives its components |
| `Paths.SplitParentOfRender` | crates/wasm_shell/src/vfs.rs:93-101 | splitting off the last component inverts the join; the root has no parent |
| `Paths.PrefixIsComponentwise` | crates/wasm_shell/src/vfs.rs:193-205 | a path followed by `/` is a string prefix of another exactly when its components are a proper prefix |
| `Mounts.FindMount` | crates/wasm_shell/src/vfs.rs:193-205 | the loop finds the first matching entry and the rest of the path |
| `Mounts.TableIsLatest` | crates/wasm_shell/src/vfs.rs:184-190 | after any sequence of registrations the table is ordered by length, has no path twice, and holds for every path exactly the latest point |
| `Mounts.RoutingIsLongestPrefix` | crates/wasm_shell/src/vfs.rs:184-205 | a lookup returns the latest registration of the longest mount above the path, mount path plus rest is the path, and none exactly when no mount covers it |
| `Mounts.RootMountCoversOnlyRoot` | crates/wasm_shell/src/vfs.rs:195-202 | a mount at `/` answers for `/` alone |
| `VfsTree.FlattenIsTreeShaped` | crates/wasm_shell/src/vfs.rs:104-136 | the flat map of a tree is prefix-closed: above everything stands a directory |
| `VfsTree.WalkRefinesLookup` | crates/wasm_shell/src/vfs.rs:104-116 | walking the tree is looking up the flat map, with the same errors |
| `VfsTree.InsertIsGraft` | crates/wasm_shell/src/vfs.rs:309-312 | inserting a name in a directory grafts the node's whole map there and changes nothing else |
| `VfsTree.DropIsPrune` | crates/wasm_shell/src/vfs.rs:428-430 | dropping a name prunes it with everything below and changes nothing else |
| `VfsTree.SubtreeOfNode` | crates/wasm_shell/src/vfs.rs:104-116 | the node at a path is the flat map's subtree there |
| `VfsOps.Vfs.AddMount` | crates/wasm_shell/src/vfs.rs:184-190 | retain, push and stable sort in place give the specified table |
| `VfsOps.Vfs.MemSetNode` | crates/wasm_shell/src/vfs.rs:298-316 | on the flat map: a graft when the parent is a directory, otherwise an error and no change |
| `VfsOps.Vfs.MemMkdir` | crates/wasm_shell/src/vfs.rs:319-341 | on the flat map: one new directory, or an error and no change |
| `VfsOps.Vfs.MemRemoveNode` | crates/wasm_shell/src/vfs.rs:419-433 | on the flat map: the detached subtree is returned and pruned, or an error and no change |
| `VfsOps.Vfs.ReadFile` | crates/wasm_shell/src/vfs.rs:209-216 | routed reads are handed on with their rest; others read the flat map, directories and most devices refused |
| `VfsOps.Vfs.WriteFile` | crates/wasm_shell/src/vfs.rs:218-238 | on the flat map: the file is there afterwards, devices swallow, directories refuse, errors change nothing |
| `VfsOps.Vfs.ListDir` | crates/wasm_shell/src/vfs.rs:240-247 | the names listed are exactly those one step below in the flat map, in increasing order |
| `Names.Sorted` | crates/wasm_shell/src/vfs.rs:376-382 | the names of a set in the order of an ordered map, each once |
| `VfsOps.Vfs.StatPath` | crates/wasm_shell/src/vfs.rs:249-256 | kind and size as the flat map says, with its errors |
| `VfsOps.Vfs.Remove` | crates/wasm_shell/src/vfs.rs:267-274 | on the flat map: the subtree is pruned, non-empty directories refused without the flag, errors change nothing |
| `VfsOps.Vfs.Rename` | crates/wasm_shell/src/vfs.rs:276-285 | on the flat map: detach, then graft what was detached; mounted ends refused |
| `VfsOps.Vfs.Mkdir` | crates/wasm_shell/src/vfs.rs:258-265 | plain and `-p`, without asking the mount table |
| `VfsOps.Vfs.MemMkdirParents` | crates/wasm_shell/src/vfs.rs:343-364 | all or nothing: it succeeds exactly when nothing on the way is other than a directory, then the way is made of directories and nothing else changed; otherwise nothing changed |
| `VfsLaws.RenameLaw` | crates/wasm_shell/src/vfs.rs:276-285 | Ok exactly when the source exists, neither end is the root and the destination's parent is a directory once the source is gone; the result is the old map without the two subtrees plus the moved one; exactly a failure of the first step changes nothing |
| `VfsLaws.RenameIntoItselfLosesIt` | crates/wasm_shell/src/vfs.rs:283-284 | renaming a directory into itself fails and the directory is gone |
| `VfsLaws.RenameMovesTheSubtree` | crates/wasm_shell/src/vfs.rs:276-285 | after a rename everything below the source is below the destination and nothing outside the two changed |
| `VfsLaws.OnlyTheNamedSubtree` | crates/wasm_shell/src/vfs.rs:218-274 | failing writes, mkdirs and removes change nothing, succeeding ones nothing outside the named subtree |
| `VfsLaws.WriteSucceeds` | crates/wasm_shell/src/vfs.rs:218-238 | a write succeeds exactly on a file, a device, or a free name in a directory |
| `VfsLaws.MkdirLaw` | crates/wasm_shell/src/vfs.rs:319-341 | mkdir makes exactly one directory, at a free name in a directory; the answer is that the name is taken, that something else stands in the way, or that the parent is missing, each if and only if that is so |
| `VfsLaws.ReadLaw` | crates/wasm_shell/src/vfs.rs:209-216 | what a read answers for a file, a directory, each device, something in the way and nothing there |
| `VfsLaws.WriteFails` | crates/wasm_shell/src/vfs.rs:218-238 | why a write fails: on a directory, with something in the way, without a parent |
| `VfsLaws.RemoveFails` | crates/wasm_shell/src/vfs.rs:408-433 | why a remove fails: not empty, the root, nothing there, something in the way, without a parent |
| `VfsLaws.RemoveSucceeds` | crates/wasm_shell/src/vfs.rs:408-433 | a remove succeeds exactly on an existing non-root location, without the flag only where nothing lies below; then exactly the subtree is gone |
| `VfsLaws.WriteAtRefines` | crates/wasm_shell/src/vfs.rs:218-238 | the tree-level write used by the executor is the flat-map write |
| `VfsLaws.WrittenIsRead` | crates/wasm_shell/src/vfs.rs:209-238 | what a successful write stored is what a read returns, devices aside |
| `LexerObject.Lexer.NextToken` | crates/bash_parser/src/lexer.rs:171-286 | from the cursor, the token, its span and the new cursor are those of the lexing function on the remaining text; errors alike |
| `LexerObject.Lexer.SkipGap` | crates/bash_parser/src/lexer.rs:138-149 | skips blanks and one comment |
| `LexerObject.Lexer.LexRedirectAt` | crates/bash_parser/src/lexer.rs:300-372 | redirection operators with their descriptor digits, backtracking to a word when no operator follows |
| `LexerObject.Lexer.LexHeredocDelimiter` | crates/bash_parser/src/lexer.rs:375-435 | quoted and bare delimiters, with their errors |
| `LexerObject.Lexer.LexWordAt` | crates/bash_parser/src/lexer.rs:437-508 | an unquoted word with whole expansions inside |
| `LexerObject.Lexer.ConsumeBalanced` | crates/bash_parser/src/lexer.rs:516-557 | the depth counter stops where the balanced extent ends, skipping single-quoted text |
| `LexerObject.Lexer.LexDqFragment` | crates/bash_parser/src/lexer.rs:560-591 | one fragment inside double quotes |
| `LexerObject.Lexer.Unescape` | crates/bash_parser/src/lexer.rs:662-684 | the loop replaces every escape inside double quotes |
| `LexerObject.Lexer.CollectOneBody` | crates/bash_parser/src/lexer.rs:606-635 | one heredoc body, verbatim, and the cursor past its delimiter line |
| `LexerObject.Lexer.CollectHeredocBodies` | crates/bash_parser/src/lexer.rs:597-638 | the bodies of all pending heredocs in order |
| `LexSpec.Lex` | crates/bash_parser/src/lexer.rs:171-286 | every call errs, reports the end at the end of the text, or consumes at least one character; spans are ordered and in bounds |
| `LexLaws.OnlyGapsAreSkipped` | crates/bash_parser/src/lexer.rs:138-149 | in front of a token stand only blanks and possibly a comment up to the end of its line; nothing is skipped inside double quotes |
| `LexLaws.EscapesInQuotes` | crates/bash_parser/src/lexer.rs:662-684 | a backslash in double quotes makes the four special characters ordinary, takes a newline away, and stands for itself in front of anything else and at the end |
| `EndToEnd.DqTokens` | crates/bash_parser/src/lexer.rs:560-591 | inside double quotes there are text, words and the closing quote, and no other token |
| `PrintTokens.UnescapeInvertsEscape` | crates/bash_parser/src/lexer.rs:662-684 | unescaping inverts escaping of double-quoted text, for every string |
| `PrintTokens.LexRender` | crates/bash_parser/src/lexer.rs:171-591 | lexing the text of a printable token list gives exactly the list, in and out of double quotes |
| `ParserObject.Parser.PeekToken` | crates/bash_parser/src/parser.rs:50-55 | peeking fills the slot with the next token and does not move the parser's place |
| `ParserObject.Parser.NextToken` | crates/bash_parser/src/parser.rs:57-62 | takes the peeked token or lexes one, in the current quoting mode |
| `ParserObject.Parser.SkipNewlines` | crates/bash_parser/src/parser.rs:64-76 | skips newlines, collecting heredoc bodies behind each |
| `ParserObject.Parser.FlushHeredocs` | crates/bash_parser/src/parser.rs:78-92 | moves the bodies of this line's heredocs to the shared queue |
| `ParserObject.Parser.ParseScript` | crates/bash_parser/src/parser.rs:96-109 | the loop equals the recursive grammar function: same tree, same error, same place |
| `ParserObject.Parser.ParseListItem` | crates/bash_parser/src/parser.rs:111-138 | the same for and-or lists and `&` |
| `ParserObject.Parser.SkipListSeparator` | crates/bash_parser/src/parser.rs:140-147 | the same for `;` |
| `ParserObject.Parser.ParsePipelineCmd` | crates/bash_parser/src/parser.rs:149-157 | the same for `!` |
| `ParserObject.Parser.ParsePipeline` | crates/bash_parser/src/parser.rs:159-182 | the same for `&#124;`, with the dropped negation |
| `ParserObject.Parser.ParseStages` | crates/bash_parser/src/parser.rs:171-180 | the same for the stages behind the first |
| `ParserObject.Parser.ParseCommand` | crates/bash_parser/src/parser.rs:194-224 | the same for the choice of command |
| `ParserObject.Parser.ParseSubshell` | crates/bash_parser/src/parser.rs:226-237 | the same for `( )` |
| `ParserObject.Parser.ParseGroup` | crates/bash_parser/src/parser.rs:239-252 | the same for `{ }` |
| `ParserObject.Parser.ParseSimpleCommand` | crates/bash_parser/src/parser.rs:254-338 | the same for assignments, words and redirections |
| `ParserObject.Parser.LookForFunction` | crates/bash_parser/src/parser.rs:300-313 | the lookahead for function definitions restores slot, cursor and place exactly |
| `ParserObject.Parser.ParseWord` | crates/bash_parser/src/parser.rs:342-380 | the same for one token's worth of word |
| `ParserObject.Parser.ParseDoubleQuoted` | crates/bash_parser/src/parser.rs:382-423 | the same for double quotes, the mode flag restored |
| `ParserObject.Parser.ParseRedirect` | crates/bash_parser/src/parser.rs:427-474 | the same for redirections and heredoc operators |
| `ParserObject.Parser.ParseDupRedirect` | crates/bash_parser/src/parser.rs:476-500 | the same for `>&` and `<&` |
| `ParserObject.ReadParts` | crates/bash_parser/src/parser.rs:513-554 | the accumulator loop over an unquoted word gives its parts |
| `ParserObject.ReadDqParts` | crates/bash_parser/src/parser.rs:556-590 | the same inside double quotes |
| `ParserObject.ReadDollar` | crates/bash_parser/src/parser.rs:616-672 | the expansion behind `$` and its length; nested scripts are parsed from a strictly shorter text |
| `ParserObject.ExtractBalanced` | crates/bash_parser/src/parser.rs:674-700 | the depth counter of the parser's scanner |
| `ParserObject.ReadBraceVar` | crates/bash_parser/src/parser.rs:704-743 | the inside of `${...}` |
| `ParserObject.ParseText` | crates/bash_parser/src/parser.rs:26-31 | parse, then fill heredoc bodies with the queue borrowed and drain it; a failing parse leaves the queue as the grammar functions say |
| `ParseSpec.Parse` | crates/bash_parser/src/parser.rs:26-31 | every parse terminates; a successful one leaves the shared queue empty, and a failing one does not keep it borrowed |
| `ParseSpec.FunctionLookahead` | crates/bash_parser/src/parser.rs:300-313 | looking ahead consumes nothing |
| `RoundTrip.ParseInvertsPrint` | crates/bash_parser/src/parser.rs:96-338 | for every script of left-leaning and-or chains of possibly negated pipelines, subshells, groups, background items, assignments, redirections and words - literal, quoted, variables, `$((...))` and nested `$(...)`, inside double quotes also with text glued to them; parameter operators with literal operands; redirections with their descriptor left out where it is the default - printing, lexing and parsing returns exactly the script |
| `RoundTrip.WordOfParses` | crates/bash_parser/src/parser.rs:504-554 | the text of an unquoted word parses back to the word |
| `RoundTrip.OperatorParses` | crates/bash_parser/src/parser.rs:704-757 | `${name<op>operand}` with or without a colon is the variable with that operator and operand |
| `EndToEnd.NameDollar` | crates/bash_parser/src/parser.rs:660-671 | `$name` is the variable of the longest name that stands there |
| `EndToEnd.BareVariable` | crates/bash_parser/src/parser.rs:342-380 | as a word `$x` and `${x}` are the same |
| `EndToEnd.DefaultDescriptors` | crates/bash_parser/src/parser.rs:427-474 | wherever in a command a redirection or heredoc operator stands, and whatever follows: without a descriptor it is read as with 0 in front of `<` and with 1 in front of `>` |
| `EndToEnd.WrittenDescriptor` | crates/bash_parser/src/parser.rs:427-474 | a descriptor that is written is kept, also in front of a heredoc operator |
| `EndToEnd.SignedDescriptor` | crates/bash_parser/src/parser.rs:476-500 | a plus sign in front of a number to duplicate means nothing |
| `EndToEnd.CommandEnds` | crates/bash_parser/src/parser.rs:254-338 | where a command ends: at the end, a newline, `&`, `&#124;`, a closing bracket, and `;` but not `;;` |
| `EndToEnd.TrimTakesSpace` | crates/bash_parser/src/parser.rs:616-640 | six kinds of white space are trimmed from both ends of a nested script, and nothing else |
| `RoundTrip.DqRunParses` | crates/bash_parser/src/parser.rs:556-590 | the text of expansions inside double quotes parses back to them |
| `EndToEnd.BangIsDropped` | crates/bash_parser/src/parser.rs:159-170 | `!` in front of a subshell or group leaves no trace in the tree |
| `EndToEnd.UnmatchedCloseEndsTheParse` | crates/bash_parser/src/parser.rs:96-109 | an unmatched `)` or `}` ends the parse successfully, whatever characters follow, also ones that are no tokens |
| `EndToEnd.OtherBracketIsAnError` | crates/bash_parser/src/parser.rs:226-252 | inside a bracket of the other kind an unmatched close is an error, again whatever follows |
| `Reading.WhereParsingStops` | crates/bash_parser/src/parser.rs:96-109 | for every text that parses: parsing stops where reading token by token, counting brackets, meets the end of the text or a close that nothing opened; nothing but blanks and a comment is left if and only if it is the end |
| `EndToEnd.AdjacentPiecesAreSeparateWords` | crates/bash_parser/src/parser.rs:342-380 | single-quoted, double-quoted and bare pieces side by side become one argument each: one argument exactly when there is one piece |
| `Refusals.KeywordRefused` | crates/bash_parser/src/parser.rs:194-224 | six words at the start of a command are refused by name |
| `Refusals.OtherWordsAreCommands` | crates/bash_parser/src/parser.rs:194-224 | every other plain word is a command, written as it stands |
| `Refusals.FunctionRefused` | crates/bash_parser/src/parser.rs:300-313 | a plain word in front of `(` is refused as a function definition |
| `Refusals.ParenthesisRefused` | crates/bash_parser/src/parser.rs:254-338 | behind the command name a `(` is an unexpected token |
| `Refusals.VariableBeforeParenthesis` | crates/bash_parser/src/parser.rs:300-313 | and so it is behind a variable in the place of the name |
| `Refusals.OpenSingleQuote` | crates/bash_parser/src/lexer.rs:262-275 | a single quote that is never closed is refused |
| `Refusals.OpenDoubleQuote` | crates/bash_parser/src/lexer.rs:560-591 | and so are double quotes |
| `Refusals.OpenSubstitution` | crates/bash_parser/src/lexer.rs:512-557 | and so are a substitution and braces that their word never closes |
| `Refusals.OpenBracket` | crates/bash_parser/src/parser.rs:226-252 | a subshell or group around any printable script that is never closed is refused as that |
| `Refusals.CompoundStageRefused` | crates/bash_parser/src/parser.rs:159-192 | a subshell or group in front of a bar is refused |
| `Refusals.NoDelimiter` | crates/bash_parser/src/lexer.rs:375-435 | a heredoc operator without a delimiter is refused |
| `Refusals.OpenDelimiter` | crates/bash_parser/src/lexer.rs:375-435 | a quoted delimiter that does not end on its line is refused |
| `Refusals.FirstOpenBody` | crates/bash_parser/src/parser.rs:78-92 | when bodies are missing the delimiter of the first of them is named |
| `Refusals.OpenExpansions` | crates/bash_parser/src/parser.rs:704-768 | braces and backticks that are not closed, and empty braces, have their own errors |
| `Refusals.LoneOperator` | crates/bash_parser/src/parser.rs:745-757 | an operator in braces with nothing in front is a name |
| `Refusals.OpenParentheses` | crates/bash_parser/src/parser.rs:616-640 | and so have parentheses behind a dollar |
| `Refusals.LoneDollar` | crates/bash_parser/src/parser.rs:660-671 | a `$` in front of nothing it could introduce is a `$` |
| `PrintLex.ScannersStayInStep` | crates/bash_parser/src/lexer.rs:516-557 | over any text that closes only what it opened, without single quotes, the lexer's and the parser's scanners pass the same number of characters and reach the same depth |
| `Scanners.ScannersAgree` | crates/bash_parser/src/parser.rs:674-700 | both scanners take exactly b out of `$(b)` if and only if the single quotes of b are closed and its parentheses balance both with and without what the quotes hide |
| `Scanners.ParserTakesExactly` | crates/bash_parser/src/parser.rs:674-700 | the parser's scanner stops exactly behind b if and only if the parentheses of b balance |
| `Scanners.LexerTakesExactly` | crates/bash_parser/src/lexer.rs:516-557 | the lexer's scanner does if and only if every single quote is closed and the parentheses outside balance |
| `Scanners.SubstitutionExtent` | crates/bash_parser/src/parser.rs:616-640 | for balanced quote-free b, the lexer consumes `$(b)` whole and the parser parses exactly b, trimmed, and reports the same length |
| `Scanners.ArithmeticExtent` | crates/bash_parser/src/parser.rs:623-631 | the same for `$((b))` |
| `Scanners.QuotedParenthesis` | crates/bash_parser/src/lexer.rs:532-539 | on `$(')')` they part: the lexer takes all five characters, the parser reports an open quote |
| `Scanners.TicksClose` | crates/bash_parser/src/lexer.rs:437-508 | between backticks the lexer takes a backslash with the next character, and the line may not end |
| `Scanners.BackticksAreDollars` | crates/bash_parser/src/parser.rs:759-768 | a script in backticks is the substitution it is in `$(...)`: the lexer takes all of it, the parser parses exactly the inside |
| `Heredocs.OneBodyCollects` | crates/bash_parser/src/lexer.rs:606-635 | the body is every line up to the first that ends it, tabs kept, and the text behind that line is left |
| `Heredocs.BodyNeedsItsDelimiter` | crates/bash_parser/src/lexer.rs:625-630 | a body is found if and only if some line ends it |
| `Heredocs.BodyIsVerbatim` | crates/bash_parser/src/lexer.rs:606-635 | whatever is collected is whole lines none of which ends the body, and the text taken is those lines and the one that does |
| `Heredocs.EndingLines` | crates/bash_parser/src/lexer.rs:606-635 | the line that ends a body is its delimiter, and after `<<-` its delimiter behind any number of tabs |
| `Heredocs.AllBodiesCollect` | crates/bash_parser/src/lexer.rs:597-638 | any number of heredocs collect exactly their own lines and stop just past the last delimiter line |
| `Heredocs.FillScriptLaw` | crates/bash_parser/src/parser.rs:816-861 | the k-th heredoc of the tree gets the k-th body, surplus bodies are left, nothing else in the tree changes; filling aborts if and only if one of those bodies does |
| `Heredocs.PlainBody` | crates/bash_parser/src/parser.rs:844-861 | a body without `$` and backticks stands for itself |
| `WordEffects.PartsEffect` | crates/bash_parser/src/parser.rs:513-554 | reading the parts of a word empties the queue exactly when they hold a command substitution, and otherwise leaves it as it was |
| `Nesting.PartsNestExactly` | crates/bash_parser/src/parser.rs:513-554 | a word is read as one with a command substitution if and only if its characters say so: an unescaped `$(` or backtick, also in the operand of `${...}` |
| `Nesting.DqPartsNestExactly` | crates/bash_parser/src/parser.rs:556-590 | the same inside double quotes, where a backslash escapes nothing |
| `Reading.ParsingIsReading` | crates/bash_parser/src/parser.rs:96-338 | for every text that parses, with any queue: one pass over the tokens, without grammar, gives the heredocs of the tree in order, whether there is a command substitution in it, where parsing stops, what is left pending and what is in the queue |
| `HeredocQueue.BodiesStandInOrder` | crates/bash_parser/src/parser.rs:64-92 | over any part of a text the collected bodies belong, in order, to the heredocs pending or announced there, the rest of which is pending at the end; every body starts right behind a newline, or at the very end of the text, and none before the one in front of it ends |
| `HeredocQueue.QueueIsASuffix` | crates/bash_parser/src/parser.rs:64-92 | along any trace the queue is what was waiting and then collected, without as many bodies as nested scripts threw away |
| `HeredocQueue.NothingLost` | crates/bash_parser/src/parser.rs:808-814 | no body is lost if and only if none is waiting where a nested script is read |
| `HeredocQueue.HeredocsOfEveryText` | crates/bash_parser/src/parser.rs:26-31 | for every text that parses, with any queue: the heredocs of the tree are those the text announces, in order, and the k-th receives the (k+n)-th body waiting or collected from the text, n being the number lost, or none when there is no such body |
| `HeredocQueue.WhoHasItsOwn` | crates/bash_parser/src/parser.rs:804-814 | with an empty queue: nothing is lost if and only if no nested script is read behind a collected body, and then every heredoc has its own; otherwise each has the body of the one n further on and the last n whose bodies were collected have none |
| `HeredocQueue.WithoutSubstitutionsAllGetTheirOwn` | crates/bash_parser/src/parser.rs:816-861 | in a script without command substitutions the k-th heredoc has the verbatim lines at the k-th place where a body is collected, up to the line that ends them, and a heredoc whose line is not ended has none |
| `HeredocQueue.WaitingBodiesGoFirst` | crates/bash_parser/src/parser.rs:804-814 | without substitutions the heredocs of a text receive the bodies an earlier parse left in the queue first, and then its own |
| `Borrowing.ParseAgree` | crates/bash_parser/src/parser.rs:808-814 | parsing with the queue borrowed does what parsing with a free queue does, same value or same error, until the queue would be touched, and aborts there; every grammar function |
| `Borrowing.BorrowedParse` | crates/bash_parser/src/parser.rs:808-814 | with the queue borrowed a text aborts if and only if, with a marked queue, it parses or changes the queue before its first syntax error; any other text ends in that error |
| `Borrowing.WhatParsesAborts` | crates/bash_parser/src/parser.rs:808-814 | in particular every text that parses aborts there |
| `Borrowing.QueueAfterAnError` | crates/bash_parser/src/parser.rs:26-31 | a failing parse that completed no nested script and collected no body leaves the queue as it was; any other leaves bodies collected from pieces of the text, either alone or, at least one, behind what was there |
| `Borrowing.BodyOutcome` | crates/bash_parser/src/parser.rs:844-861 | for every body: quoted is literal; unquoted aborts if and only if splitting it touches the queue; otherwise it becomes its parts, or raw text if it does not split; a command substitution is never among the parts |
| `Heredocs.SubstitutionInBody` | crates/bash_parser/src/parser.rs:844-861 | the first command substitution of an unquoted body, whatever variables and arithmetic stand in front, aborts the parse if and only if its script disturbs the queue, as every script that parses does; otherwise the body stays raw text |
| `Heredocs.EmptySubstitutionAborts` | crates/bash_parser/src/parser.rs:808-814 | `$()` in an unquoted body aborts |
| `HeredocText.HeredocsParse` | crates/bash_parser/src/parser.rs:427-448 | texts that do parse: a command with any number of heredoc operators, quoted, bare or tab-stripping, gets exactly its bodies and nothing is left over |
| `HeredocText.HeredocsAbort` | crates/bash_parser/src/parser.rs:844-861 | and if one of its bodies aborts, so does the parse |
| `HeredocText.BodiesLostToASubstitution` | crates/bash_parser/src/parser.rs:759-768 | a text at which it happens: any command with heredocs, followed by `x $()`, loses all its bodies |
| `HeredocText.ErrorAfterASubstitution` | crates/bash_parser/src/parser.rs:254-338 | a text with a syntax error that disturbs the queue all the same: `$() ;;` |
| `HeredocText.ErrorLeavesBodies` | crates/bash_parser/src/parser.rs:26-31 | a command with heredocs followed by `;;` fails and leaves exactly its bodies in the queue |
| `Exec.VecWriter.WriteAll` | crates/wasm_shell/src/io.rs:31-39 | a write appends to the one shared buffer |
| `Exec.BytesReader.Fork` | crates/wasm_shell/src/io.rs:67-70 | an independent cursor at the same place |
| `Exec.BytesReader.ReadToEnd` | crates/wasm_shell/src/io.rs:73-86 | reading returns the rest and moves the cursor to the end |
| `Exec.Io.Share` | crates/wasm_shell/src/io.rs:108-117 | same buffers, own input cursor |
| `Exec.ExpandWord` | crates/wasm_shell/src/expand.rs:24-64 | result and state are those of the value-level expansion, and no buffer that existed before is touched, however deep substitutions nest |
| `Exec.ExpandWords` | crates/wasm_shell/src/expand.rs:67-76 | the same, left to right, the first failure winning |
| `Exec.ExpandPart` | crates/wasm_shell/src/expand.rs:80-94 | the same for a double-quoted part |
| `Exec.ExpandVar` | crates/wasm_shell/src/expand.rs:98-152 | the same for the parameter operators, `:=` assigning |
| `Exec.ExpandHeredoc` | crates/wasm_shell/src/expand.rs:168-179 | the same for heredoc bodies |
| `Exec.EvalArith` | crates/wasm_shell/src/expand.rs:184-187 | the same for arithmetic |
| `Exec.Capture` | crates/wasm_shell/src/exec.rs:31-43 | a substitution runs in the current shell on fresh buffers and yields what was written to its output, without trailing newlines |
| `Exec.ExecuteScript` | crates/wasm_shell/src/exec.rs:17-28 | status, state and writes are those of the value-level run; exactly the two given buffers are appended to |
| `Exec.ExecuteCommand` | crates/wasm_shell/src/exec.rs:55-105 | the same for every kind of command |
| `Exec.ExecutePipeline` | crates/wasm_shell/src/exec.rs:109-143 | the same for pipelines; inner stages write to buffers of their own |
| `Exec.ExecuteSimple` | crates/wasm_shell/src/exec.rs:147-222 | the same for assignments, alias expansion, redirections, dispatch, file flushing and the restore |
| `Exec.AssignVariables` | crates/wasm_shell/src/exec.rs:156-166 | the loop assigns in order and notes old values when scoped |
| `Exec.RestoreVariables` | crates/wasm_shell/src/exec.rs:214-219 | the loop puts noted values back in forward order |
| `Exec.ApplyRedirections` | crates/wasm_shell/src/exec.rs:232-301 | the handles realize the descriptor table of the left-to-right fold: one fresh empty buffer per file, all different, each descriptor on what its table entry names |
| `Exec.DispatchInto` | crates/wasm_shell/src/exec.rs:201-204 | through redirected, possibly aliased handles each of the command's own buffers and each file buffer receives exactly what the table sends there |
| `Exec.Flush` | crates/wasm_shell/src/exec.rs:198-210 | files are written in the order they were opened, appends behind what is there |
| `Exec.Dispatch` | crates/wasm_shell/src/exec.rs:428-477 | `exit`, intrinsics, programs and unknown names; a failing program's environment is not taken over |
| `Exec.Exec` | crates/wasm_shell/src/shell.rs:253-303 | parse with whatever bodies are waiting in the queue, run on fresh buffers, turn `exit` into a status, set `$?`; the queue afterwards is what this parse left |
| `Exec.InheritedOnto` | crates/wasm_shell/src/exec.rs:272-292 | what the table leaves to the command's own descriptors reaches its two buffers, also when they are one |
| `Values.VariableValue` | crates/wasm_shell/src/expand.rs:98-101 | a variable in the environment expands to its value, any other to nothing |
| `Values.OperatorTable` | crates/wasm_shell/src/expand.rs:98-152 | what `-`, `=`, `+` and `?` give and do, for a variable that is set and not empty and for any other, by the operand's value or failure |
| `Values.AssignedByDefault` | crates/wasm_shell/src/expand.rs:110-121 | what `:=` assigns is what the variable expands to from then on |
| `Values.LengthValue` | crates/wasm_shell/src/expand.rs:98-152 | `${#x}` is the decimal length of the value, 0 when there is none |
| `Values.SpecialValues` | crates/wasm_shell/src/expand.rs:154-164 | `$?` is the last status in decimal; the other special parameters are fixed |
| `Values.TildeValue` | crates/wasm_shell/src/expand.rs:24-36 | a tilde alone or in front of a slash is the home directory, or the root without one; quoted it is a tilde |
| `Values.LiteralValue` | crates/wasm_shell/src/expand.rs:24-36 | every other literal is itself |
| `Values.ArithmeticValue` | crates/wasm_shell/src/expand.rs:184-187 | `$((...))` is the decimal numeral of the value, or the evaluator's failure |
| `Values.WordsInOrder` | crates/wasm_shell/src/expand.rs:67-76 | the k-th value is that of the k-th word, expanded in the state the words in front of it left |
| `Values.ConcatJoins` | crates/wasm_shell/src/expand.rs:53-63 | words side by side are their values side by side, or the first failure |
| `Values.QuotedPartsJoin` | crates/wasm_shell/src/expand.rs:80-94 | double quotes keep literals as they are and join the parts in order; nothing else changes inside |
| `Values.SubstitutionValue` | crates/wasm_shell/src/exec.rs:31-43 | the value of a substitution followed by some newlines is exactly what its script wrote to descriptor 1, and it does not end in a newline; the state is the script's, and so is a failure |
| `Values.WithoutTailIsUnique` | crates/wasm_shell/src/exec.rs:36-42 | that determines the value |
| `Calls.CallFromText` | crates/wasm_shell/src/exec.rs:440-457 | executing a printed command calls its program once, with the name and the values of the arguments, in the state their expansion left; what is seen of the answer is its status and everything it left, or on a failure only the filesystem and the outside |
| `Calls.VariableReachesTheProgram` | crates/wasm_shell/src/expand.rs:98-101 | after executing `X=v`, a command with `${X}` and `"a${X}b"` receives v and a, v, b joined |
| `Calls.QuotedReachesTheProgram` | crates/wasm_shell/src/expand.rs:37-43 | any strings, escaped and double-quoted, are the program's arguments |
| `Calls.ArithmeticReachesTheProgram` | crates/wasm_shell/src/expand.rs:184-187 | an expression in any spacing is received as the decimal numeral of its value |
| `Calls.SubstitutionReachesTheProgram` | crates/wasm_shell/src/exec.rs:31-43 | `name $(inner ...)` calls the inner program with empty input first, and then the outer one with what the inner wrote to descriptor 1, without the newlines at its end |
| `Dispatching.ExitFromText` | crates/wasm_shell/src/exec.rs:316-319 | `exit` ends with its first argument if that is a number of 32 bits, else with 0, and changes nothing but the last status |
| `Dispatching.SignedNumeral` | crates/wasm_shell/src/exec.rs:316-319 | which numerals are such numbers, with and without a sign |
| `Dispatching.IntrinsicFromText` | crates/wasm_shell/src/exec.rs:307-425 | the five names that the shell answers to itself |
| `Dispatching.NotFoundFromText` | crates/wasm_shell/src/exec.rs:460-475 | a name nobody answers to gives 127 and its message; one with a slash gives 126, and the message says whether something is there |
| `Dispatching.AliasFromText` | crates/wasm_shell/src/exec.rs:175-193 | an alias puts its words, split at any white space, in place of the name, once, in front of the arguments |
| `Dispatching.EmptyAlias` | crates/wasm_shell/src/exec.rs:175-188 | an alias without words is none |
| `Dispatching.MountAnswers` | crates/wasm_shell/src/vfs.rs:209-256 | reads, writes and questions about a mounted path are answered by its mount, and only the outside changes |
| `Dispatching.MountedAppend` | crates/wasm_shell/src/exec.rs:198-206 | appending to a mounted file asks for what is there and writes that with the new text behind |
| `Streams.LastInputWins` | crates/wasm_shell/src/exec.rs:244-260 | the input is what the last input redirection supplies in the state in which it is made: a heredoc's body, or the data of the file in the tree of that moment |
| `Streams.OwnInput` | crates/wasm_shell/src/exec.rs:232-301 | without input redirections it is the command's own |
| `Streams.ProgramInput` | crates/wasm_shell/src/exec.rs:147-204 | so for the program of every command that gets as far |
| `Streams.UnreadableInput` | crates/wasm_shell/src/exec.rs:244-251 | an input file that cannot be read fails the command with its error |
| `Streams.ShownWhateverTheFiles` | crates/wasm_shell/src/exec.rs:197-210 | what a program wrote to the command's own descriptors is shown, also when a file cannot be written |
| `Streams.HeredocReachesTheProgram` | crates/wasm_shell/src/exec.rs:252-256 | executing a text with heredocs gives the program exactly the lines of the last one |
| `Streams.FileReachesTheProgram` | crates/wasm_shell/src/exec.rs:244-251 | executing `name < f` gives it what the file holds |
| `Streams.BothToFileFromText` | crates/wasm_shell/src/exec.rs:197-210 | executing `name > f 2>& 1` shows nothing, and f then holds everything written, in order |
| `Streams.EachFileHolds` | crates/wasm_shell/src/exec.rs:197-210 | every file a command opened holds in the end exactly what its descriptors sent there, behind what it held if it was opened to append |
| `Streams.OpenedToAppend` | crates/wasm_shell/src/exec.rs:262-272 | which is so for `>>` and no other |
| `Streams.RefusedFromText` | crates/wasm_shell/src/shell.rs:253-303 | a text with a syntax error is not run at all, and heredoc bodies in front of the error wait for the next text |
| `Streams.AbortedFromText` | crates/wasm_shell/src/shell.rs:253-303 | a heredoc body that aborts panics the shell before anything is run |
| `ExecLaws.AndOrListIsLinear` | crates/wasm_shell/src/exec.rs:63-80 | running a left-leaning and-or tree is running the linear machine that executes a command exactly when the current status matches its operator; any length and mix |
| `ExecLaws.ListTextIsLinear` | crates/bash_parser/src/parser.rs:111-138 | the same from text: printed, parsed and executed, a list runs as the scan over its commands |
| `ExecLaws.PipelineShowsItsLastStage` | crates/wasm_shell/src/exec.rs:109-143 | a completed pipeline shows exactly the last stage's output and all stages' errors in order; every stage reads exactly what the one before wrote |
| `ExecLaws.BrokenPipelineShowsNothing` | crates/wasm_shell/src/exec.rs:133-134 | when a stage that is not the last fails, nothing reaches the pipeline's output |
| `ExecLaws.PipelineStatus` | crates/wasm_shell/src/exec.rs:136-142 | the status is the last stage's, or negated 1 for 0 and 0 for anything else; nothing else depends on the negation |
| `ExecLaws.NegationFromText` | crates/wasm_shell/src/exec.rs:136-142 | executing `! command` is executing the command with its status and `$?` turned around |
| `ExecLaws.GroupsAreTransparent` | crates/wasm_shell/src/exec.rs:99-105 | executing a printed group is executing what is in it |
| `ExecLaws.BackgroundIsForeground` | crates/wasm_shell/src/exec.rs:84-89 | executing `command &` is executing the command |
| `ExecLaws.SequenceRuns` | crates/wasm_shell/src/exec.rs:81-105 | a sequence runs as a group |
| `Leaks.ExitingSubshellLeaks` | crates/wasm_shell/src/exec.rs:90-98 | executing `( X=1 ; exit 3 ; )` ends with status 3 and leaves X set outside |
| `ExecLaws.LastExitIsTheStatus` | crates/wasm_shell/src/exec.rs:22-27 | after a non-empty script `$?` is the script's status |
| `ExecLaws.ScriptsCompose` | crates/wasm_shell/src/shell.rs:253-277 | executing two printed scripts in turn is executing their concatenation: status, state and output |
| `ExecLaws.EmptyScriptSucceeds` | crates/wasm_shell/src/shell.rs:253-277 | the empty script succeeds and resets `$?` |
| `ScopeLaws.QuietWordKeepsTheState` | crates/wasm_shell/src/expand.rs:24-152 | expanding a word without command substitution or `:=` changes nothing |
| `ScopeLaws.VariablesAfterACommand` | crates/wasm_shell/src/exec.rs:156-221 | after a command that got through, every assigned variable holds what it held just before the last assignment to it, every other what the program left |
| `ScopeLaws.AssignedOnceIsUndone` | crates/wasm_shell/src/exec.rs:197-221 | a variable assigned once gets its old value back, or is unset again, whatever the program did |
| `ScopeLaws.AssignedTwiceComesBackWrong` | crates/wasm_shell/src/exec.rs:214-219 | a variable assigned more than once comes back with the value of its last assignment but one, so with its old value if and only if that is the same |
| `ScopeLaws.VariablesInEveryCase` | crates/wasm_shell/src/exec.rs:147-222 | what every variable holds after a quiet command in every case: nothing is restored unless the command gets through; a failing value, name, argument or redirection leaves what was assigned up to then, a failing file everything as the program left it |
| `ScopeLaws.AssignedIsTheLastValue` | crates/wasm_shell/src/exec.rs:156-166 | what was assigned is the last value given to the variable, or its old value if there is none |
| `ScopeLaws.PlainCommandsFinish` | crates/wasm_shell/src/exec.rs:147-222 | a command of plain words that opens no file always gets through, whatever its program does |
| `Leaks.FailedArgumentLeaksTheAssignment` | crates/wasm_shell/src/exec.rs:179-193 | executing `X=1 a $((1/0))` fails and leaves X set |
| `Leaks.FailedFileLeaksTheAssignment` | crates/wasm_shell/src/exec.rs:197-207 | executing `X=1 exit 3 >f`, when f cannot be written, does not exit, fails with the error of the file, and leaves X set |
| `ScopeLaws.RedirectAllKeepsRange` | crates/wasm_shell/src/exec.rs:232-301 | redirections keep every descriptor on something that exists and only add files |
| `ScopeLaws.EachWriteHasOneSink` | crates/wasm_shell/src/exec.rs:232-301 | every single write lands at its place in exactly one of own output, own error and the opened files, and leaves what all others receive unchanged |
| `FdTable.RedirectAllIsTheFold` | crates/wasm_shell/src/exec.rs:232-301 | on descriptors 1 and 2 the redirections do what the fold over their kinds and targets does, whatever their words expand to |
| `FdTable.RedirectionsAgreeExactly` | crates/wasm_shell/src/exec.rs:262-297 | against a table for all descriptors with duplication and closing: the executor agrees on 1 and 2 after every redirection of a list if and only if each is of the supported kind where it stands |
| `FdTable.SupportedRedirections` | crates/wasm_shell/src/exec.rs:262-297 | a command with supported redirections runs with 1 and 2 where that table has them |
| `FdTable.FinalTableExactly` | crates/wasm_shell/src/exec.rs:262-297 | what the program sees: behind the last redirection descriptor 1, and likewise 2, is what that table says if and only if, going back from the last redirection and through copies of 1 and 2, opening it comes before anything that spoils it |
| `FdTable.ClosedThenOpened` | crates/wasm_shell/src/exec.rs:262-297 | a list that ends right without being right throughout: `>&- >f` |
| `ScopeLaws.EveryByteLandsOnce` | crates/wasm_shell/src/exec.rs:232-301 | conservation: what all sinks together receive is, character for character, what the program wrote |
| `ScopeLaws.OrderMatters` | crates/wasm_shell/src/exec.rs:262-292 | `>f 2>&1` puts both descriptors on the file, `2>&1 >f` leaves 2 on the old 1 |
| `ScopeLaws.BothToFile` | crates/wasm_shell/src/exec.rs:197-210 | `cmd >f 2>&1` shows nothing, and reading f afterwards gives everything written, in order |
| `ScopeLaws.ErrorsShownOutputToFile` | crates/wasm_shell/src/exec.rs:197-210 | `cmd 2>&1 >f` shows exactly the errors, and f holds exactly the output |
| `ScopeLaws.AppendedIsRead` | crates/wasm_shell/src/exec.rs:198-206 | after an append the file holds its old contents followed by what was written |
| `EndToEnd.DoubleQuotingIsFaithful` | crates/wasm_shell/src/expand.rs:37-43 | any list of strings, escaped and double-quoted in a command's text, is parsed and expanded to exactly that list |
| `EndToEnd.ArithmeticFromText` | crates/wasm_shell/src/expand.rs:184-187 | an expression printed into `$((...))` in a command's text expands to its value in decimal |
| `EndToEnd.SpacedArithmeticFromText` | crates/wasm_shell/src/expand.rs:184-187 | the same for any parentheses and any blanks around the tokens |

## Left out

- `Sem.Dispatch`: `source`, `.`, `xargs`, `which` and `type` answer as the world says; `source` can recurse without bound, the others are simple loops. `exit` is modelled.
- `RoundTrip.ParseInvertsPrint`: the printed class has no heredocs (see `HeredocText.HeredocsParse`), in `${...}` only literal operands without quotes and brackets, no backticks, inside double quotes no empty text, no lone `$` and no backslash directly in front of an expansion, and inside `$(...)` only texts with balanced parentheses and no single quotes; redirections follow the arguments.
- `HeredocText.HeredocsParse`: that other texts with heredocs parse; for every text that does, `HeredocQueue.HeredocsOfEveryText` says which heredoc gets which body.
- `HeredocQueue.HeredocsOfEveryText`: for texts that parse; what a failing parse leaves in the queue is bounded by `Borrowing.QueueAfterAnError` and not traced event by event.
- `Exec.Exec`: a `source` during the run parses with the same queue; its answer belongs to the world, so what it takes from the queue or leaves there is not in the contract.
- `Exec.ExecutePipeline`: concurrency; background commands and pipeline stages run one after the other, as in the original.
- `ParserObject.ParseText`: heredoc bodies are filled by a function on the tree, not by assignment in place.
- `VfsOps.Vfs.MemSetNode`: the nested tree is a value that is rebuilt along the path; the original updates it in place through nested borrows.
- `Exec.Dispatch`: a program is one answer to one call; that it only appends to its own handles is part of the `World`, and its reads of standard input are one read of everything.
- Characters are ASCII; lossy decoding and byte offsets inside multi-byte characters are not modelled.
- Error messages are reduced to their kind and the data they carry; the spans of parse errors are not modelled.
- `Vfs::init` and `Vfs::copy`, tilde expansion and alias expansion beyond what `Exec.ExecuteSimple` states, and `PATH` lookup, which belongs to the world.
- `crates/wasm_shell/src/wasm.rs`, the builtins, the registry, async scheduling and locks, the JavaScript packages.
