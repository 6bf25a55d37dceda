# deriv: a verified model of a one-line symbolic differentiator

`deriv.cpp` reads one arithmetic expression from standard input. It parses
the expression into a flat postfix program (the "Poliz") and
differentiates that program symbolically with respect to `x`. It then
reads an integer and prints the derivative's value with every identifier
bound to that integer.

This project models the four passes of the program in Dafny. Each pass is
an imperative class whose methods are proved against a pure reference
function.

- `Poliz` (poliz.dfy) defines the program.
  - A program is a `seq<Node>` of `Identifier(name)`, `Number(value)`,
    n-ary `Addition(arity, mask)` and n-ary `Multiplication(arity)`.
  - `Exec` is its integer stack semantics and `Height` its stack
    discipline.
  - `AddBack` models `add_back`.
- `Lexing` (lexer.dfy) models `lexer::next`.
  - The `Lexer` class runs the same character-class state machine as
    `lexer::next`, over an input sequence with a look-ahead cursor.
  - It is proved against `Lex`, a reference tokenizer.
  - `Lex` is in turn characterised declaratively by `LexesAs`, proved
    sound and complete.
  - An input must end in a newline. At end of input the look-ahead is EOF
    (-1), which no token starts with, so the tokenizer raises an error.
- `Parsing` (parser.dfy) models the recursive-descent parser.
  - The `Parser` class appends to one shared program, exactly as
    `_addition`, `_multiplication` and `_factor` do.
  - Every rule returns a ghost parse tree `Expr`. The proofs show that the
    program emitted is `Compile(e)`, that the tokens consumed are
    `Tokens(e)`, and that `e` belongs to the grammar.
  - The descent's progress is tracked by `Walk`, the phase reached after a
    run of tokens. The phase is an operand or an operator expected at some
    parenthesis depth, accepted at END, or stuck. Every parser method keeps
    `Walk` of the tokens consumed as an invariant.
  - An error is raised at the first token the descent cannot take, with
    every earlier token taken, and it is the error `Blame` names for that
    phase. So the error a line gets is decided by the line
    (`Pipeline.Decided`).
- `Duals` (duals.dfy) is the dual-number semantics `DExec`.
  - Each stack entry is a pair (value, derivative).
  - An entry is combined only with the binary rules
    (a, da) + (b, db) = (a + b, da + db) and
    (a, da) * (b, db) = (ab, a db + da b).
  - The generalised n-ary product rule is proved from the binary rule.
- `Differentiation` (deriver.dfy) models `Deriver`.
  - It keeps two stacks of program fragments, `operands` and
    `derivatives`.
  - The main theorem is `DeriveCorrect`: on any well-formed program, the
    fragment `derive` returns evaluates to the derivative component of the
    dual semantics, and the matching operand fragment recomputes the
    program's value.
- `Evaluation` (evaluator.dfy) models `InfixPrinter::calculate` and its
  visits. `Calculate` is proved to leave exactly `Exec`'s stack.
- `Pipeline` (pipeline.dfy) composes the passes as `main` does.
  - `Run` parses, differentiates with respect to `"x"` and evaluates.
  - Its result is the derivative of the parsed expression by the binary
    rules.

Integers are unbounded. Every identifier evaluates to the one bound value,
but only `x` has derivative 1.

## Model

| member | source | states |
|---|---|---|
| Poliz.AllTrue | deriv.cpp:467 | the product rule's closing mask has one entry per factor, every entry true |
| Poliz.HeightStep | deriv.cpp:504-563 | an operand pushes exactly one value; an n-ary node of arity k pops k values and pushes one, so it never grows the stack and a stack that held a value still holds one; None exactly when the arity is 0 or, for arity 2 or more, the stack holds fewer than k values |
| Poliz.Height | deriv.cpp:493-502 | the stack height after each node in turn, None on underflow; its properties are HeightAppend, HeightPrefix and ExecDefined |
| Poliz.Step | deriv.cpp:504-563 | one node on the integer stack runs exactly when HeightStep allows it and an Addition's mask covers its operators, and then leaves the height HeightStep gives |
| Poliz.Exec | deriv.cpp:493-502 | runs the nodes in order from the given stack, None on underflow; its properties are ExecDefined, ExecAppend, ExecFrame and ExecFlatten |
| Poliz.SignedSum | deriv.cpp:538-555 | the first value, then each next value added for a true mask entry and subtracted for a false one, from the left; its properties are SignedSumPrefix, StepAdditionExact and Evaluation.Evaluator.Accumulate |
| Poliz.Product | deriv.cpp:518-525 | the product of the values; its properties are Evaluation.ProductCons, Evaluation.ProductStep and StepMultiplicationExact |
| Poliz.AddBack | deriv.cpp:346-358 | appends every element of the second sequence after the first, in order |
| Poliz.SignedSumPrefix | deriv.cpp:538-545 | mask entries past the first arity-1 are never read |
| Poliz.ExecAppend | deriv.cpp:493-502 | running a concatenated program is running its halves one after the other |
| Poliz.ExecFrame | deriv.cpp:513-556 | a program only touches the top of the stack it runs on; entries below are kept |
| Poliz.ComputesOnAnyStack | deriv.cpp:380-386 | a fragment that leaves one value on an empty stack pushes that value onto any stack |
| Poliz.ExecFlatten | deriv.cpp:405-412 | fragments concatenated in push order push their values in that order |
| Poliz.StepAdditionExact | deriv.cpp:528-556 | an Addition over exactly arity values leaves their signed sum |
| Poliz.StepMultiplicationExact | deriv.cpp:513-526 | a Multiplication over exactly arity values leaves their product |
| Poliz.AppendNodeComputes | deriv.cpp:411-412 | a fragment followed by the node that folds its values computes the folded value |
| Poliz.ExecDefined | deriv.cpp:493-563 | a program runs exactly when its stack never underflows and every Addition mask covers its terms; it then leaves Height values |
| Poliz.HeightAppend | deriv.cpp:373-375 | stack heights compose over a concatenation |
| Poliz.HeightPrefix | deriv.cpp:373-375 | every prefix of a program that never underflows never underflows either |
| Lexing.SymbolKind | deriv.cpp:32-47 | each of + - * ( ) is the one-character token of its kind |
| Lexing.RunEnd | deriv.cpp:69-89 | the end of the maximal run of a character class: every character before it is in the class, the one at it is not |
| Lexing.Lex | deriv.cpp:24-141 | a token always carries text of its kind; every token but END consumes input; END stops at the newline; an error names a character that starts no token |
| Lexing.Scan | deriv.cpp:24-141 | reading n tokens in a row gives n tokens, or fails |
| Lexing.RunEndUnique | deriv.cpp:69-89 | a run that stops where its class stops is the maximal run |
| Lexing.LexSound | deriv.cpp:24-141 | every token read is described by LexesAs: blanks skipped, maximal digit and identifier runs, single-character symbols, END at a newline |
| Lexing.LexComplete | deriv.cpp:24-141 | a token described by LexesAs is the one read, so tokenization is unique |
| Lexing.LexFails | deriv.cpp:61-66 | reading fails exactly when the first non-blank character starts no token and is not a newline; the error carries its code, EOF included |
| Lexing.EndIsSticky | deriv.cpp:51-54 | END does not consume its newline, so reading on yields END again |
| Lexing.EndStep | deriv.cpp:51-54 | where the cursor rests on a newline, the next read is END and leaves the cursor there |
| Lexing.ScanAfterEnd | deriv.cpp:51-54 | once END has been read, every further read succeeds and the cursor stays on the newline |
| Lexing.EndsAfter | deriv.cpp:51-54 | every token read after END is END |
| Lexing.EndAgain | deriv.cpp:51-54 | just after END the cursor rests on the newline that ended the line |
| Lexing.ScanPrefix | deriv.cpp:24-141 | reading fewer tokens gives a prefix of the tokens |
| Lexing.ScanExtend | deriv.cpp:24-141 | one more token read extends the tokens read so far |
| Lexing.NumberLexes | deriv.cpp:69-77 | a maximal digit run after blanks is one NUMBER with that text |
| Lexing.IdentLexes | deriv.cpp:79-89 | a letter and a maximal alphanumeric run after blanks is one ID with that text |
| Lexing.SymbolLexes | deriv.cpp:91-114 | an operator or parenthesis after blanks is a one-character token |
| Lexing.Lexer.constructor | deriv.cpp:19-22 | the look-ahead starts at the first character, no token has been read, the token type starts as PLUS |
| Lexing.Lexer.Next | deriv.cpp:24-141 | succeeds exactly when Lex does, with Lex's token and cursor; the tokens read so far stay the first tokens of the input; an error carries Lex's code; the remaining input shrinks unless the previous token was END |
| Lexing.Lexer.RunMachine | deriv.cpp:28-139 | the state machine stops with a token described by LexesAs, or fails on the first non-blank character that starts no token |
| Lexing.Lexer.Transition | deriv.cpp:30-118 | one switch on the state and the look-ahead keeps the machine's invariant or raises the error |
| Lexing.Lexer.Consume | deriv.cpp:120-138 | moves past the look-ahead, keeping it in the token text unless it is white space |
| Parsing.SumSignsLength | deriv.cpp:254-268 | the mask of a sum chain has one sign per operator, arity-1 in all |
| Parsing.Compile | deriv.cpp:252-314 | the postfix program of an expression: an operand pushes itself, a chain of two or more emits its operands' programs then one n-ary node; its properties are CompileCorrect, CompileShaped and DExecCompile |
| Parsing.SumChain | deriv.cpp:256-269 | the programs of a sum chain's terms in reading order, without the closing Addition; its property is DExecChain |
| Parsing.ProdChain | deriv.cpp:278-283 | the programs of a product chain's factors in reading order, without the closing Multiplication; its property is DExecProdChain |
| Parsing.SumSigns | deriv.cpp:259-266 | one sign per operator of a sum chain, true for PLUS and false for MINUS; its property is SumSignsLength |
| Parsing.DigitsValue | deriv.cpp:297 | the decimal value of a literal's digits, the value stoi converts; Parser.Number compares it with 2147483647 |
| Parsing.TokensShape | deriv.cpp:252-314 | the tokens of an expression are odd in number, contain no END and end in an ID, a NUMBER or a CLOSE |
| Parsing.TokensOdd | deriv.cpp:252-314 | operands and operators alternate, so an expression has an odd number of tokens |
| Parsing.TokensNoEnd | deriv.cpp:252-314 | an expression's tokens contain no END |
| Parsing.TokensBalanced | deriv.cpp:301-309 | every OPEN among an expression's tokens is matched by a CLOSE: as many of one as of the other |
| Parsing.TokensLast | deriv.cpp:252-314 | an expression ends in an ID, a NUMBER or a CLOSE |
| Parsing.SumChainValue | deriv.cpp:257-272 | folding a sum chain's operands with its mask gives the left-nested binary sum and difference |
| Parsing.ProdChainValue | deriv.cpp:279-286 | the product of a product chain's operands is the left-nested binary product |
| Parsing.DSignedSumPrefix | deriv.cpp:538-545 | extra mask entries do not change a signed sum of duals |
| Parsing.DExecCompile | deriv.cpp:252-314 | the emitted program pushes exactly the expression's value and derivative on the dual stack |
| Parsing.DExecTerms | deriv.cpp:256-269 | the operands of a sum chain push their duals in reading order |
| Parsing.DExecChain | deriv.cpp:256-269 | the same, for a chain of one operand or more |
| Parsing.DExecProdTerms | deriv.cpp:278-283 | the operands of a product chain push their duals in reading order |
| Parsing.DExecProdChain | deriv.cpp:278-283 | the same, for a chain of one factor or more |
| Parsing.DExecAppend | deriv.cpp:234 | on the dual stack, a concatenated program runs its halves in order |
| Parsing.CompileCorrect | deriv.cpp:240-314 | the parsed program evaluates on an empty stack, without underflow, to exactly the expression's value, and is well formed |
| Parsing.CompileShaped | deriv.cpp:270-272 | an n-ary node is emitted only for at least two operands, and an Addition carries exactly arity-1 signs |
| Parsing.Parser.constructor | deriv.cpp:242-243 | the parser starts with an empty program and a fresh tokenizer |
| Parsing.Parser.Advance | deriv.cpp:293 | reading the next token records it after the current one, or fails with the tokenizer's error at that point |
| Parsing.Parser.Factor | deriv.cpp:289-314 | ID, NUMBER or ( addition ); any other token fails with ExpectedFactor, raised only where an operand must start (at the beginning, after OPEN or after an operator); a literal above 2147483647 fails with ConversionError; on success it appends the factor's program and consumes its tokens |
| Parsing.Parser.Identifier | deriv.cpp:291-295 | an identifier appends Identifier(name) after reading on |
| Parsing.Parser.Number | deriv.cpp:296-300 | a literal fails with ConversionError exactly when it exceeds 2147483647; otherwise it appends Number(value) |
| Parsing.Parser.Parenthesised | deriv.cpp:301-309 | ( addition ) appends the inner program and consumes the tokens with both parentheses, leaving the walk at the depth it started from |
| Parsing.Parser.OpenParen | deriv.cpp:301-303 | OPEN is consumed and the walk expects an operand one level deeper; a tokenizer failure there is explained by the tokens read |
| Parsing.Parser.CloseParen | deriv.cpp:304-308 | called where the inner addition stopped, at a token other than PLUS, MINUS or MULT: a current token other than CLOSE fails with ExpectedClose and nothing else, naming the tokens since OPEN; CLOSE is consumed and closes the parentheses, one level shallower |
| Parsing.Parser.Multiplication | deriv.cpp:275-287 | appends the chain's factor programs then, for two factors or more, one Multiplication of their count; stops at a token other than MULT |
| Parsing.Parser.MoreFactors | deriv.cpp:279-283 | one more MULT factor extends the product chain |
| Parsing.Parser.Addition | deriv.cpp:252-273 | appends the chain's term programs then, for two terms or more, one Addition of their count with one sign per operator (true for PLUS); stops at a token other than PLUS, MINUS or MULT |
| Parsing.Parser.MoreTerms | deriv.cpp:257-269 | one more signed term extends the sum chain, with the operator's sign |
| Parsing.Parser.ParseFull | deriv.cpp:240-250 | on success the result is Compile(e) for an expression e of the grammar, and the input reads as Tokens(e) then END; ExcessText means the input reads as a whole addition followed by a token other than END, PLUS, MINUS or MULT; every other error is raised at the last token read, the first the walk cannot take, with every earlier token taken: ExpectedFactor where an operand is expected, ExpectedClose inside parentheses after a whole addition, ConversionError at a literal above 2147483647 where an operand is expected, a lexical error while the walk is still live |
| Parsing.Parser.ExpectEnd | deriv.cpp:245-249 | after the top-level addition the result is Ok exactly at END, with the input reading as the addition's tokens then END; otherwise ExcessText at the current token |
| Parsing.Walk | deriv.cpp:252-314 | the phase of the descent after a run of tokens; its properties are WalkOperandStart, WalkSettled and the Stand invariant of every Parser method |
| Parsing.Blame | deriv.cpp:246-312 | the error raised at a token the phase cannot take: ExpectedFactor, or ConversionError for a literal, where an operand is expected; ExpectedClose inside parentheses; ExcessText at depth 0; its property is Pipeline.StuckOn |
| Parsing.WalkOperandStart | deriv.cpp:289-312 | where the walk expects an operand, the tokens read end where an operand must begin: at the start, after OPEN or after an operator |
| Parsing.WalkSettled | deriv.cpp:246-312 | once the walk is accepted or stuck, further tokens do not change it |
| Parsing.MissingClose | deriv.cpp:304-306 | a parenthesised addition followed by a token other than CLOSE, PLUS, MINUS or MULT is explained as ExpectedClose |
| Duals.DSignedSumParts | deriv.cpp:398-424 | sum rule: the signed sum of duals is the signed sum of the values paired with the signed sum of the derivatives |
| Duals.ProductTermExtend | deriv.cpp:458-466 | one more factor multiplies every existing product-rule term by it |
| Duals.TermSumExtend | deriv.cpp:458-466 | one more factor multiplies the sum of the existing product-rule terms by it |
| Duals.LastProductTerm | deriv.cpp:458-466 | the newest product-rule term is the old product times the new factor's derivative |
| Duals.ProductRule | deriv.cpp:426-470 | generalised product rule: the folded binary rule gives the product of the values and the sum over i of the product with factor i replaced by its derivative |
| Duals.AllTrueSum | deriv.cpp:467 | an all-true Addition over the product-rule terms adds them up |
| Duals.DExecValues | deriv.cpp:493-563 | the value component of the dual semantics is the integer semantics |
| Duals.DStepValues | deriv.cpp:504-563 | the same for one node |
| Duals.AdditionValues | deriv.cpp:528-556 | the same for one Addition |
| Duals.MultiplicationValues | deriv.cpp:513-526 | the same for one Multiplication |
| Differentiation.Visit | deriv.cpp:380-386 | one visit leaves both stacks at the evaluation stack's new height and keeps every entry below the popped ones |
| Differentiation.DeriveSpec | deriv.cpp:368-377 | both stacks always have the height of the evaluation stack |
| Differentiation.ProductTerms | deriv.cpp:458-466 | the first m product-rule terms, term i being every factor fragment with the i-th replaced by its derivative, followed by the Multiplication; its properties are ExecProductTerms and ComputesProductTerms |
| Differentiation.Derivative | deriv.cpp:376 | the derivative fragment on top of the stack after the whole pass; its properties are DeriveCorrect and DerivativeWellFormed |
| Differentiation.Deriver.constructor | deriv.cpp:361-366 | both stacks start empty |
| Differentiation.Deriver.Derive | deriv.cpp:368-377 | clears the stacks, visits every node in order, leaves DeriveSpec's stacks and returns the top derivative fragment |
| Differentiation.Deriver.VisitIdentifier | deriv.cpp:388-391 | pushes the identifier and [Number(1)] when it is the variable, else [Number(0)] |
| Differentiation.Deriver.VisitNumber | deriv.cpp:393-396 | pushes the literal and [Number(0)] |
| Differentiation.Deriver.PopTop | deriv.cpp:433-447 | takes the top k fragments in push order and the stack below them |
| Differentiation.Deriver.Concat | deriv.cpp:449-453 | concatenates fragments in order with add_back |
| Differentiation.Deriver.CombineTop | deriv.cpp:405-423 | replaces the top k fragments by their concatenation in push order followed by the node |
| Differentiation.Deriver.VisitAddition | deriv.cpp:398-424 | sum rule on both stacks; arity 1 changes nothing |
| Differentiation.Deriver.BuildProductTerms | deriv.cpp:458-466 | the n product-rule terms, each followed by Multiplication(n) |
| Differentiation.Deriver.AppendTerm | deriv.cpp:460-464 | term i: every factor fragment in order, the i-th replaced by its derivative |
| Differentiation.Deriver.VisitMultiplication | deriv.cpp:426-470 | the operand fragment is the factors then the Multiplication; the derivative is the n terms then Addition(n, all true); arity 1 changes nothing |
| Differentiation.ExecProductTerm | deriv.cpp:460-465 | one product-rule term computes the product with factor i replaced by its derivative |
| Differentiation.ExecProductTerms | deriv.cpp:458-466 | the product-rule terms push the terms' values in order |
| Differentiation.ComputesProductTerms | deriv.cpp:458-466 | the same, from an empty stack |
| Differentiation.ExecProductRuleFragment | deriv.cpp:467-468 | the terms followed by the all-true Addition compute their sum |
| Differentiation.ExecSumFragment | deriv.cpp:405-423 | concatenated fragments followed by the Addition compute the signed sum of their values |
| Differentiation.ExecProductFragment | deriv.cpp:449-456 | concatenated factor fragments followed by the Multiplication compute their product |
| Differentiation.PushTracks | deriv.cpp:388-396 | pushing a fragment pair that computes a dual keeps the stacks tracking the dual stack |
| Differentiation.ReplaceTopTracks | deriv.cpp:410-422 | replacing the top k entries by such a pair keeps tracking |
| Differentiation.TopComputes | deriv.cpp:380-384 | the top k fragments compute the top k values and derivatives |
| Differentiation.VisitTracks | deriv.cpp:388-470 | each visit does to the fragment stacks what the dual semantics does to the values and derivatives |
| Differentiation.VisitAdditionTracks | deriv.cpp:398-424 | the sum rule keeps tracking |
| Differentiation.VisitMultiplicationTracks | deriv.cpp:426-470 | the product rule keeps tracking |
| Differentiation.DeriveTracks | deriv.cpp:368-377 | the whole pass keeps tracking the dual semantics |
| Differentiation.DeriveCorrect | deriv.cpp:368-377 | the returned fragment computes the derivative of the program's result, and the operand fragment beside it recomputes the result |
| Differentiation.DerivativeWellFormed | deriv.cpp:376 | the derivative is a well-formed program leaving exactly one value |
| Evaluation.ProductCons | deriv.cpp:518-525 | a product taken from the front equals the product taken from the back |
| Evaluation.ProductStep | deriv.cpp:518-525 | multiplying in the next value below extends a suffix product |
| Evaluation.PrefixRuns | deriv.cpp:497-500 | a program that runs to completion runs each prefix and each next node |
| Evaluation.Evaluator.constructor | deriv.cpp:482 | binds the value every identifier reads; the stack starts empty |
| Evaluation.Evaluator.VisitIdentifier | deriv.cpp:504-507 | pushes the bound value, whatever the name |
| Evaluation.Evaluator.VisitNumber | deriv.cpp:508-511 | pushes the literal |
| Evaluation.Evaluator.PrintNAryItem | deriv.cpp:513-526 | replaces the top arity values by their product; arity 1 changes nothing |
| Evaluation.Evaluator.PrintNAryItem2 | deriv.cpp:528-556 | replaces the top arity values by their left-to-right signed sum under the mask; arity 1 changes nothing |
| Evaluation.Evaluator.Accumulate | deriv.cpp:538-555 | folding the reversed values from the back gives the signed sum from the earliest-pushed term |
| Evaluation.Evaluator.Visit | deriv.cpp:558-563 | each node does what Step says |
| Evaluation.Evaluator.Calculate | deriv.cpp:493-502 | leaves Exec's stack and returns its top; a program leaving one value returns that value |
| Pipeline.DerivativeOfParsed | deriv.cpp:573-574 | the derivative of a parsed program evaluates to the expression's derivative by the binary rules and is well formed |
| Pipeline.Slope | deriv.cpp:574-577 | derive with respect to x, then calculate, gives the expression's derivative at x |
| Pipeline.Run | deriv.cpp:566-582 | Reports: a parsed line yields the derivative at x of the expression read; ExcessText only when the line reads as an addition followed by a token other than END, PLUS, MINUS or MULT; any other rejection is the error raised at the first token the walk cannot take, or the tokenizer's error while the walk is live; Decided shows this fixes the answer |
| Pipeline.SlopeAtParsed | deriv.cpp:573-577 | what the program prints for a parsed expression is its derivative |
| Pipeline.SquareSlope | deriv.cpp:573-577 | the tree of x*x, at 3, prints 6 |
| Pipeline.TripleSumSlope | deriv.cpp:573-577 | the tree of x+x+x prints 3 at every x |
| Pipeline.CubeSlope | deriv.cpp:573-577 | the tree of x*x*x, at 2, prints 12 |
| Pipeline.DifferenceSlope | deriv.cpp:573-577 | the tree of 2*x-x prints 1 at every x |
| Pipeline.ConstantSlope | deriv.cpp:573-577 | the tree of a literal prints 0 |
| Pipeline.OtherNameSlope | deriv.cpp:573-577 | the tree of x*y, at 3, prints 3: y reads the bound value but has derivative 0 |
| Pipeline.ReadOn | deriv.cpp:24-141 | one more token lexed from where the tokens read so far end extends them |
| Pipeline.ReadStream | deriv.cpp:51-54 | once a line has been read up to its END, every token list read from it follows those tokens and then repeats END |
| Pipeline.ReadBeyond | deriv.cpp:51-54 | every token read past the END of a line is END |
| Pipeline.NeverFails | deriv.cpp:51-54 | a line that reads up to its END never makes the tokenizer fail |
| Pipeline.ValueAlong | deriv.cpp:240-250 | an addition read up to END leaves an odd number of tokens before the line's END |
| Pipeline.ExcessAlong | deriv.cpp:245-248 | an addition followed by a token other than END, PLUS, MINUS or MULT is found in the line's tokens at an odd position after an operand |
| Pipeline.UnclosedAlong | deriv.cpp:304-306 | a missing CLOSE found in the line's tokens: an OPEN, a balanced run of tokens, and the offending token |
| Pipeline.UnclosedExpr | deriv.cpp:301-306 | the same once the tokens read are known to follow the line's tokens |
| Pipeline.UnclosedAmong | deriv.cpp:301-306 | the same on the tokens alone, for any balanced run without END after the OPEN |
| Pipeline.ReadAddition | deriv.cpp:245-246 | an addition followed by one more token, read from a line, is an odd proper prefix of the line's tokens ending in an operand, and that token comes next |
| Pipeline.ExplainedAlong | deriv.cpp:289-314 | on a line whose tokens are known, a lexical error cannot happen; ExpectedFactor names a token other than ID, NUMBER or OPEN, found at the start of the line or right after OPEN or an operator; ExpectedClose needs an OPEN, then a run of tokens with as many OPEN as CLOSE, then a token other than CLOSE, PLUS, MINUS or MULT; ConversionError names a literal above 2147483647 |
| Pipeline.ParsedAlong | deriv.cpp:240-250 | on a line whose tokens are known, success needs an odd number of tokens before END; ExcessText needs an odd-length proper prefix ending in an ID, NUMBER or CLOSE, followed by a token other than END, PLUS, MINUS or MULT |
| Pipeline.ErrorAlong | deriv.cpp:240-314 | the same facts for every other error, stated on the line's tokens alone |
| Pipeline.RejectedAlong | deriv.cpp:566-582 | what Run reports for a line follows from the line's tokens alone (AnswerFits) |
| Pipeline.TwoNumbersTokens | deriv.cpp:24-141 | the line "1 2" reads as two NUMBER tokens then END |
| Pipeline.TwoNumbersRejected | deriv.cpp:246-248 | Run on "1 2" reports ExcessText |
| Pipeline.OneLead | deriv.cpp:24-141 | a line starting with the digit 1 and no second digit reads first as the NUMBER 1 |
| Pipeline.TwoNumbersLead | deriv.cpp:24-141 | a line starting "1 2" with no third digit reads first as two NUMBER tokens |
| Pipeline.TwoNumbersSettle | deriv.cpp:246-248 | the walk over "1 2" takes the first number and is stuck at the second, blamed as ExcessText |
| Pipeline.ExcessFirst | deriv.cpp:246-248 | whatever follows "1 2" on a line, Run reports ExcessText |
| Pipeline.TrailingPlusRejected | deriv.cpp:246-248 | Run on "1 2+" reports ExcessText, not ExpectedFactor after the PLUS |
| Pipeline.TrailingJunkRejected | deriv.cpp:246-248 | Run on "1 2@" reports ExcessText, not the tokenizer's error at the "@" |
| Pipeline.StrayCloseTokens | deriv.cpp:24-141 | the line "1 )" reads as NUMBER, CLOSE, END |
| Pipeline.StrayCloseRejected | deriv.cpp:246-248 | Run on "1 )" reports ExcessText, not ExpectedFactor |
| Pipeline.UnclosedTokens | deriv.cpp:24-141 | the line "(1" reads as OPEN, NUMBER, END |
| Pipeline.UnclosedRejected | deriv.cpp:304-306 | Run on "(1" reports ExpectedClose, not ExpectedFactor |
| Pipeline.UnclosedSumTokens | deriv.cpp:24-141 | the line "(1+2" reads as OPEN, NUMBER, PLUS, NUMBER, END |
| Pipeline.UnclosedSumRejected | deriv.cpp:304-306 | Run on "(1+2" reports ExpectedClose |
| Pipeline.MissingOperandTokens | deriv.cpp:24-141 | the line "1+" reads as NUMBER, PLUS, END |
| Pipeline.MissingOperandRejected | deriv.cpp:310-312 | Run on "1+" reports ExpectedFactor |
| Pipeline.OpenOperatorTokens | deriv.cpp:24-141 | the line "(1+)" reads as OPEN, NUMBER, PLUS, CLOSE, END |
| Pipeline.OpenOperatorRejected | deriv.cpp:257-312 | Run on "(1+)" reports ExpectedFactor at the CLOSE where the operand after PLUS should start, not ExpectedClose |
| Pipeline.Settles | deriv.cpp:240-314 | tokens of a line at which a run ends with an answer: the walk accepts them, or is stuck on the last with the error Blame names, or is live where the tokenizer fails; its properties are ReportsSettle and SettlesOnce |
| Pipeline.ReportsSettle | deriv.cpp:240-314 | every answer Run may give is settled by some tokens of the line |
| Pipeline.AfterAddition | deriv.cpp:245-249 | a whole addition then END settles with a value; then a token other than an operator settles with ExcessText |
| Pipeline.ExplainedSettles | deriv.cpp:289-312 | an explained parse or lexical error is the one its tokens settle on |
| Pipeline.StuckOn | deriv.cpp:289-312 | each parse error leaves the walk stuck in the phase that raises it, and Blame names that error |
| Pipeline.WalkEnds | deriv.cpp:240-314 | the walk's side of settling: accepted for a value, live for a lexical error, stuck on the last token with the error Blame names; its property is WalkAgree |
| Pipeline.WalkAgree | deriv.cpp:240-314 | a walk ended with a value or a parse error ends every longer run of tokens it begins, with the same answer |
| Pipeline.SettlesOnce | deriv.cpp:240-314 | two settlings of one line agree: both values, or the same error |
| Pipeline.Decided | deriv.cpp:240-314 | Run answers with a value exactly when the line settles with one, and otherwise with the error the line settles on |
| Pipeline.OneAnswer | deriv.cpp:566-582 | two runs on one line give the same error, or both a value |
| Pipeline.OpenOperatorClosed | deriv.cpp:301-309 | in the tokens of "(1+)" no OPEN is followed by a balanced run and then a token that could stand for a missing CLOSE |

## Left out

- Standard input and output in `main` (deriv.cpp:566-582): `Run` takes the line as a character sequence and the value of `x` as a parameter, and returns the result or the error instead of printing it.
- `lexer::init` reads the first character; the model's cursor starts at 0 instead.
- The line and column counters of the tokenizer and the texts of the error messages: they are diagnostics only. Errors are tagged values.
- `PostfixPrinter`: a debugging aid that is never called.
- `InfixPrinter::print` and the `priorities` stack: `print` is `calculate` plus output, and `priorities` is written but never read.
- `shared_ptr` ownership and the visitor double dispatch: nodes are immutable values, and dispatch is a `match`.
- The tokenizer's state is global and persists across calls. The model gives each `Parser` its own fresh `Lexer`, and `ParseFull` requires one that has read nothing.
- The tokenizer's five one-character states are merged into one state `Saw(kind)`. Each pass of the loop is split into `Transition` (the switch) and `Consume` (reading the next character).
- Input is a sequence of characters with C-locale character classes. Bytes outside ASCII, other locales and encodings are not modelled.
- `add_back` appends to a vector passed by reference; `AddBack` returns the extended sequence instead.
- Nodes of arity 0 never come out of the parser. `Poliz.HeightStep` and `Poliz.Step` treat them as malformed. `Evaluation.Evaluator.Visit`, `Evaluation.Evaluator.PrintNAryItem2`, `Differentiation.Deriver.VisitAddition` and `Differentiation.Deriver.VisitMultiplication` exclude them by precondition. `Evaluation.Evaluator.PrintNAryItem` on its own accepts arity 0 and, like the source's loop, leaves the stack unchanged.
- Stack underflow (`back()` on an empty vector) is undefined behaviour in the source. The visits exclude it by precondition, and `Calculate` and `Derive` require a program that never underflows. The parser's programs are proved to satisfy this.
- Evaluation.Evaluator.Calculate: computes with unbounded integers. The source's 32-bit `int` arithmetic overflows (undefined behaviour) on large values.
- Evaluation.Evaluator.PrintNAryItem: unbounded product, not 32-bit.
- Evaluation.Evaluator.PrintNAryItem2: unbounded sum and difference, not 32-bit.
- Parsing.Parser.Number: the literal's value is its decimal value. `std::stoi` failing for a literal above 2147483647 is modelled as `ConversionError`.
- Parsing.Parser.ParseFull: states what each outcome means. It does not prove that the grammar is unambiguous, that is, that `Tokens` determines the expression.
- Pipeline.Run: `Reports` says what each answer implies about the line, and `Decided` that the line fixes which error it is. It does not promise that every line of the grammar is accepted, nor that two accepted runs read the same expression; the rejected lines above are derived from it one by one.
- Poliz.Exec and Poliz.Height carry no postcondition of their own. Their properties are the lemmas named in their rows.
