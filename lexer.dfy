/** The tokenizer: a character-class state machine reading one character
    ahead. Standard input is modelled as the sequence `input` together with a
    cursor `pos`; the look-ahead character is the one at the cursor, and end
    of input reads as EOF (-1). Character classes are those of the C locale. */
module Lexing {
  import opened Failures

  datatype TokenType = Plus | Mult | Num | Open | Close | End | Id | Minus

  datatype Token = Token(kind: TokenType, text: string)

  /** A token and the cursor position just after it. */
  datatype Lexed = Lexed(token: Token, next: nat)

  /** The first tokens of an input and the cursor position after them. */
  datatype Scanned = Scanned(tokens: seq<Token>, next: nat)

  const EOF: int := -1
  const NEWLINE: int := 10

  /** The character at position i, or EOF past the end. */
  function CharAt(s: seq<char>, i: nat): int
  {
    if i < |s| then s[i] as int else EOF
  }

  // ---------------------------------------------------------------------
  // Character classes (C locale)

  predicate IsSpace(c: int) { c == 32 || 9 <= c <= 13 }
  predicate IsDigit(c: int) { 48 <= c <= 57 }
  predicate IsAlpha(c: int) { 65 <= c <= 90 || 97 <= c <= 122 }
  predicate IsAlnum(c: int) { IsDigit(c) || IsAlpha(c) }

  /** White space that is skipped: every space character except newline. */
  predicate IsBlank(c: int) { IsSpace(c) && c != NEWLINE }

  datatype CharClass = Blank | Digit | Alnum

  predicate InClass(c: int, cls: CharClass)
  {
    match cls
    case Blank => IsBlank(c)
    case Digit => IsDigit(c)
    case Alnum => IsAlnum(c)
  }

  /** The character that makes up a one-character token. */
  function SymbolText(kind: TokenType): string
  {
    match kind
    case Plus => "+"
    case Minus => "-"
    case Mult => "*"
    case Open => "("
    case Close => ")"
    case _ => ""
  }

  predicate IsSymbol(kind: TokenType)
  {
    kind in {Plus, Minus, Mult, Open, Close}
  }

  /** The characters that make up a token on their own. */
  predicate IsSymbolChar(c: int)
  {
    c in {'+' as int, '-' as int, '*' as int, '(' as int, ')' as int}
  }

  /** The kind of a one-character token. */
  function SymbolKind(c: int): (kind: TokenType)
    requires IsSymbolChar(c)
    ensures IsSymbol(kind) && SymbolText(kind) == [c as char]
  {
    if c == '+' as int then Plus
    else if c == '-' as int then Minus
    else if c == '*' as int then Mult
    else if c == '(' as int then Open
    else Close
  }

  /** The first character of a token other than END. */
  predicate StartsToken(c: int)
  {
    IsSymbolChar(c) || IsAlpha(c) || IsDigit(c)
  }

  predicate IsDigitText(t: string)
  {
    |t| >= 1 && forall k :: 0 <= k < |t| ==> IsDigit(t[k] as int)
  }

  predicate IsIdentText(t: string)
  {
    |t| >= 1 && IsAlpha(t[0] as int) && forall k :: 0 <= k < |t| ==> IsAlnum(t[k] as int)
  }

  /** The text a token of each kind can carry. */
  predicate WellTexted(t: Token)
  {
    match t.kind
    case Num => IsDigitText(t.text)
    case Id => IsIdentText(t.text)
    case End => t.text == ""
    case _ => t.text == SymbolText(t.kind)
  }

  // ---------------------------------------------------------------------
  // Reference tokenizer

  /** End of the maximal run of class cls starting at i. */
  function RunEnd(s: seq<char>, i: nat, cls: CharClass): (j: nat)
    requires i <= |s|
    ensures i <= j <= |s|
    ensures forall k :: i <= k < j ==> InClass(s[k] as int, cls)
    ensures !InClass(CharAt(s, j), cls)
    decreases |s| - i
  {
    if i < |s| && InClass(s[i] as int, cls) then RunEnd(s, i + 1, cls) else i
  }

  /** A character of class cls followed by a run of that class spells a
      text whose every character is of the class. */
  lemma RunText(s: seq<char>, j: nat, e: nat, cls: CharClass)
    requires j < e <= |s| && forall k :: j <= k < e ==> InClass(s[k] as int, cls)
    ensures forall k :: 0 <= k < |s[j..e]| ==> InClass(s[j..e][k] as int, cls)
  {
    forall k | 0 <= k < |s[j..e]|
      ensures InClass(s[j..e][k] as int, cls)
    {
      assert s[j..e][k] == s[j + k];
    }
  }

  /** The token that starts at i after skipped blanks, or the error raised
      for the character found there. */
  function Lex(s: seq<char>, i: nat): (r: Result<Lexed>)
    requires i <= |s|
    ensures r.Ok? ==> i <= r.value.next <= |s| && WellTexted(r.value.token)
    ensures r.Ok? && r.value.token.kind != End ==> i < r.value.next
    ensures r.Ok? && r.value.token.kind == End ==> CharAt(s, r.value.next) == NEWLINE
    ensures r.Err? ==> r.error.LexError? && !StartsToken(r.error.code) && r.error.code != NEWLINE
  {
    var j := RunEnd(s, i, Blank);
    var c := CharAt(s, j);
    if c == '+' as int then Ok(Lexed(Token(Plus, "+"), j + 1))
    else if c == '-' as int then Ok(Lexed(Token(Minus, "-"), j + 1))
    else if c == '*' as int then Ok(Lexed(Token(Mult, "*"), j + 1))
    else if c == '(' as int then Ok(Lexed(Token(Open, "("), j + 1))
    else if c == ')' as int then Ok(Lexed(Token(Close, ")"), j + 1))
    else if IsDigit(c) then
      var e := RunEnd(s, j + 1, Digit);
      RunText(s, j, e, Digit);
      Ok(Lexed(Token(Num, s[j..e]), e))
    else if c == NEWLINE then Ok(Lexed(Token(End, ""), j))
    else if IsAlpha(c) then
      var e := RunEnd(s, j + 1, Alnum);
      RunText(s, j, e, Alnum);
      Ok(Lexed(Token(Id, s[j..e]), e))
    else Err(LexError(c))
  }

  /** The first n tokens of s, read from the start; None if one of them
      cannot be read. */
  function Scan(s: seq<char>, n: nat): (r: Option<Scanned>)
    ensures r.Some? ==> |r.value.tokens| == n && r.value.next <= |s|
  {
    if n == 0 then Some(Scanned([], 0))
    else match Scan(s, n - 1)
      case None => None
      case Some(sc) =>
        match Lex(s, sc.next)
        case Err(_) => None
        case Ok(l) => Some(Scanned(sc.tokens + [l.token], l.next))
  }

  /** Declarative description of one token: t is read from position i, its
      first character is at j after a run of blanks, and the cursor ends at
      n. Digit runs and identifiers are maximal; END does not consume its
      newline. */
  predicate LexesAs(s: seq<char>, i: nat, j: nat, t: Token, n: nat)
  {
    i <= j <= n <= |s| &&
    (forall k :: i <= k < j ==> IsBlank(s[k] as int)) &&
    match t.kind
    case End => CharAt(s, j) == NEWLINE && n == j && t.text == ""
    case Num => j < n && t.text == s[j..n] && IsDigitText(t.text) && !IsDigit(CharAt(s, n))
    case Id => j < n && t.text == s[j..n] && IsIdentText(t.text) && !IsAlnum(CharAt(s, n))
    case _ => n == j + 1 && t.text == s[j..n] && t.text == SymbolText(t.kind)
  }

  // ---------------------------------------------------------------------
  // Lemmas

  /** A run that ends where its class ends is the maximal run. */
  lemma {:induction false} RunEndUnique(s: seq<char>, i: nat, j: nat, cls: CharClass)
    requires i <= j <= |s|
    requires forall k :: i <= k < j ==> InClass(s[k] as int, cls)
    requires !InClass(CharAt(s, j), cls)
    ensures RunEnd(s, i, cls) == j
    decreases j - i
  {
    if i < j {
      RunEndUnique(s, i + 1, j, cls);
    }
  }

  /** Every token Lex reads is described by LexesAs, with its first
      character right after the skipped blanks. */
  lemma LexSound(s: seq<char>, i: nat)
    requires i <= |s| && Lex(s, i).Ok?
    ensures LexesAs(s, i, RunEnd(s, i, Blank), Lex(s, i).value.token, Lex(s, i).value.next)
  {
    var j := RunEnd(s, i, Blank);
    var c := CharAt(s, j);
    if IsDigit(c) {
      var e := RunEnd(s, j + 1, Digit);
      assert forall k :: 0 <= k < e - j ==> s[j..e][k] == s[j + k];
    } else if IsAlpha(c) && c != NEWLINE {
      var e := RunEnd(s, j + 1, Alnum);
      assert forall k :: 0 <= k < e - j ==> s[j..e][k] == s[j + k];
    } else if c != NEWLINE {
      assert s[j..j + 1] == [s[j]];
    }
  }

  /** Conversely, a token described by LexesAs is the one Lex reads: the
      tokenization is unique. */
  lemma LexComplete(s: seq<char>, i: nat, j: nat, t: Token, n: nat)
    requires LexesAs(s, i, j, t, n)
    ensures Lex(s, i) == Ok(Lexed(t, n))
  {
    var c := CharAt(s, j);
    if t.kind == End {
      assert !IsBlank(c);
    } else if t.kind == Num {
      assert s[j] == t.text[0];
      forall k | j + 1 <= k < n
        ensures IsDigit(s[k] as int)
      {
        assert s[k] == t.text[k - j];
      }
      RunEndUnique(s, j + 1, n, Digit);
    } else if t.kind == Id {
      assert s[j] == t.text[0];
      forall k | j + 1 <= k < n
        ensures IsAlnum(s[k] as int)
      {
        assert s[k] == t.text[k - j];
      }
      RunEndUnique(s, j + 1, n, Alnum);
    } else {
      assert s[j] == t.text[0];
    }
    RunEndUnique(s, i, j, Blank);
  }

  /** Lex fails exactly when the first character after the blanks starts no
      token and is not a newline; the error carries that character's code,
      EOF included. */
  lemma LexFails(s: seq<char>, i: nat)
    requires i <= |s|
    ensures var c := CharAt(s, RunEnd(s, i, Blank));
            Lex(s, i).Err? <==> !StartsToken(c) && c != NEWLINE
    ensures Lex(s, i).Err? ==> Lex(s, i).error == LexError(CharAt(s, RunEnd(s, i, Blank)))
  {
  }

  /** END does not consume its newline, so reading on after it yields END
      again at the same position. */
  lemma EndIsSticky(s: seq<char>, i: nat)
    requires i <= |s| && Lex(s, i).Ok? && Lex(s, i).value.token.kind == End
    ensures Lex(s, Lex(s, i).value.next) == Lex(s, i)
  {
    var n := Lex(s, i).value.next;
    RunEndUnique(s, n, n, Blank);
  }

  /** Reading fewer tokens gives a prefix of the tokens. */
  lemma {:induction false} ScanPrefix(s: seq<char>, n: nat, m: nat)
    requires m <= n && Scan(s, n).Some?
    ensures Scan(s, m).Some? && Scan(s, m).value.tokens == Scan(s, n).value.tokens[..m]
    decreases n
  {
    if m < n {
      ScanPrefix(s, n - 1, m);
      assert Scan(s, n).value.tokens[..n - 1] == Scan(s, n - 1).value.tokens;
    } else {
      assert Scan(s, n).value.tokens[..n] == Scan(s, n).value.tokens;
    }
  }

  /** A maximal digit run after blanks is a NUMBER token. */
  lemma NumberLexes(s: seq<char>, i: nat, j: nat, n: nat)
    requires i <= j < n <= |s| && forall k :: i <= k < j ==> IsBlank(s[k] as int)
    requires forall k :: j <= k < n ==> IsDigit(s[k] as int)
    requires !IsDigit(CharAt(s, n))
    ensures LexesAs(s, i, j, Token(Num, s[j..n]), n)
  {
    assert forall k :: 0 <= k < n - j ==> s[j..n][k] == s[j + k];
  }

  /** A letter followed by a maximal alphanumeric run, after blanks, is an
      ID token. */
  lemma IdentLexes(s: seq<char>, i: nat, j: nat, n: nat)
    requires i <= j < n <= |s| && forall k :: i <= k < j ==> IsBlank(s[k] as int)
    requires IsAlpha(s[j] as int) && forall k :: j <= k < n ==> IsAlnum(s[k] as int)
    requires !IsAlnum(CharAt(s, n))
    ensures LexesAs(s, i, j, Token(Id, s[j..n]), n)
  {
    assert forall k :: 0 <= k < n - j ==> s[j..n][k] == s[j + k];
  }

  /** A one-character token after blanks. */
  lemma SymbolLexes(s: seq<char>, i: nat, j: nat, kind: TokenType)
    requires i <= j < |s| && forall k :: i <= k < j ==> IsBlank(s[k] as int)
    requires IsSymbol(kind) && [s[j]] == SymbolText(kind)
    ensures LexesAs(s, i, j, Token(kind, [s[j]]), j + 1)
  {
    assert s[j..j + 1] == [s[j]];
  }

  /** One more token read after the first n extends the scan. */
  lemma ScanExtend(s: seq<char>, ts: seq<Token>, p: nat, t: Token, q: nat)
    requires Scan(s, |ts|) == Some(Scanned(ts, p)) && p <= |s| && Lex(s, p) == Ok(Lexed(t, q))
    ensures Scan(s, |ts| + 1) == Some(Scanned(ts + [t], q))
  {
  }

  /** Where the cursor rests on a newline, the next read is END and leaves
      the cursor there. */
  lemma EndStep(s: seq<char>, n: nat, p: nat)
    requires n >= 1 && Scan(s, n - 1).Some? && Scan(s, n - 1).value.next == p && CharAt(s, p) == NEWLINE
    ensures Scan(s, n) == Some(Scanned(Scan(s, n - 1).value.tokens + [Token(End, "")], p))
  {
    LexComplete(s, p, p, Token(End, ""), p);
  }

  /** Where END is read without moving the cursor, every further read
      succeeds and leaves the cursor there. */
  lemma {:induction false} ScanAfterEnd(s: seq<char>, ts: seq<Token>, p: nat, n: nat)
    requires Scan(s, |ts|) == Some(Scanned(ts, p)) && CharAt(s, p) == NEWLINE
    requires n >= |ts|
    ensures Scan(s, n).Some? && Scan(s, n).value.next == p
    decreases n
  {
    if n > |ts| {
      ScanAfterEnd(s, ts, p, n - 1);
      EndStep(s, n, p);
    }
  }

  /** ... and every token read after ts is END: here the one at index i,
      for i at or beyond |ts|. */
  lemma EndsAfter(s: seq<char>, ts: seq<Token>, p: nat, n: nat, i: nat)
    requires Scan(s, |ts|) == Some(Scanned(ts, p)) && CharAt(s, p) == NEWLINE
    requires |ts| <= i < n && Scan(s, n).Some?
    ensures Scan(s, n).value.tokens[i] == Token(End, "")
  {
    var k := i + 1;
    ScanAfterEnd(s, ts, p, k - 1);
    ScanPrefix(s, n, k);
    EndStep(s, k, p);
    assert Scan(s, k).value.tokens[k - 1] == Token(End, "");
    assert Scan(s, n).value.tokens[..k][i] == Scan(s, n).value.tokens[i];
  }

  /** Just after END the cursor rests on the newline that ended the line. */
  lemma EndAgain(s: seq<char>, ts: seq<Token>, p: nat)
    requires Scan(s, |ts|) == Some(Scanned(ts, p)) && ts != [] && ts[|ts| - 1] == Token(End, "")
    ensures CharAt(s, p) == NEWLINE
  {
    var sc := Scan(s, |ts| - 1).value;
    assert Lex(s, sc.next).value.token == Token(End, "");
  }

  lemma SliceGrow(s: seq<char>, j: nat, p: nat)
    requires j <= p < |s|
    ensures s[j..p] + [s[p]] == s[j..p + 1]
  {
  }

  // ---------------------------------------------------------------------
  // The state machine

  /** States of the machine: Start skips blanks and dispatches on the first
      character; InNumber and InIdent extend a run; Saw(kind) has read the
      one-character token of that kind (one state per operator or
      parenthesis); Done ends the call. */
  datatype State = Start | InNumber | InIdent | Saw(kind: TokenType) | Done

  class Lexer {
    const input: seq<char>
    /** Position of the look-ahead character `c` in the input. */
    var pos: nat
    var curType: TokenType
    var curText: string
    /** Every token delivered so far. */
    ghost var trace: seq<Token>

    /** The look-ahead character. */
    function Look(): int
      reads this
    {
      CharAt(input, pos)
    }

    /** Decreases with every token read before END: END does not consume
        its newline, every other token consumes at least one character. */
    function Remaining(): int
      reads this
    {
      |input| - pos + (if curType == End then 0 else 1)
    }

    /** The tokens delivered so far are the first tokens of the input, the
        last of them is the current token, and the cursor is just after it. */
    ghost predicate Valid()
      reads this
    {
      pos <= |input| &&
      Scan(input, |trace|) == Some(Scanned(trace, pos)) &&
      (trace == [] ==> curType == Plus && curText == "") &&
      (trace != [] ==> trace[|trace| - 1] == Token(curType, curText) && WellTexted(Token(curType, curText))) &&
      (curType == End ==> Look() == NEWLINE)
    }

    /** The tokenizer before its first call: the token type starts as PLUS
        (zero-initialised) and the look-ahead is the first character. */
    constructor(input: seq<char>)
      ensures this.input == input && pos == 0 && trace == []
      ensures Valid()
    {
      this.input := input;
      pos := 0;
      curType := Plus;
      curText := "";
      trace := [];
    }

    /** Reads the next token into curType and curText. */
    method Next() returns (o: Outcome)
      requires Valid()
      modifies this
      ensures o.Pass? <==> Lex(input, old(pos)).Ok?
      ensures o.Pass? ==> Valid() && trace == old(trace) + [Token(curType, curText)] &&
                          Lex(input, old(pos)) == Ok(Lexed(Token(curType, curText), pos))
      ensures o.Fail? ==> o.error == Lex(input, old(pos)).error && trace == old(trace)
      ensures o.Pass? && old(curType) != End ==> 0 <= Remaining() < old(Remaining())
    {
      curText := "";
      ghost var start := pos;
      o := RunMachine();
      LexFails(input, start);
      if o.Pass? {
        LexComplete(input, start, RunEnd(input, start, Blank), Token(curType, curText), pos);
        ScanExtend(input, trace, start, Token(curType, curText), pos);
        trace := trace + [Token(curType, curText)];
      }
    }

    /** The state machine proper: runs from the look-ahead character until a
        token is complete, or fails on a character no token starts with. */
    method RunMachine() returns (o: Outcome)
      requires pos <= |input| && curText == "" && (curType == End ==> Look() == NEWLINE)
      modifies this
      ensures trace == old(trace)
      ensures var j := RunEnd(input, old(pos), Blank);
              o.Pass? ==> LexesAs(input, old(pos), j, Token(curType, curText), pos)
      ensures var c := CharAt(input, RunEnd(input, old(pos), Blank));
              o.Fail? ==> o == Fail(LexError(c)) && !StartsToken(c) && c != NEWLINE
    {
      ghost var start := pos;
      ghost var j := RunEnd(input, start, Blank);
      ghost var first := curType;
      var state := Start;
      while state != Done
        invariant trace == old(trace)
        invariant AtHead(state, start, j, first)
        decreases |input| - pos + (if state == Done then 0 else 1)
      {
        state, o := Transition(state, start, j, first);
        if o.Fail? {
          return;
        }
        if state != Done {
          Consume(state, start, j, first);
        }
      }
      return Pass;
    }

    /** Where the machine stands at the head of its loop, reading from start
        with the first token character at j; first is the token type the
        call began with. */
    ghost predicate AtHead(state: State, start: nat, j: nat, first: TokenType)
      reads this
    {
      start <= pos <= |input| && j == RunEnd(input, start, Blank) &&
      (state != Done ==> curType == first) &&
      (first == End ==> j == start && CharAt(input, j) == NEWLINE && (state == Start || state == Done)) &&
      match state
      case Start => pos <= j && curText == ""
      case Saw(kind) =>
        IsSymbol(kind) && pos == j + 1 && j < |input| &&
        curText == [input[j]] && [input[j]] == SymbolText(kind)
      case InNumber =>
        j < pos && curText == input[j..pos] &&
        forall k :: j <= k < pos ==> IsDigit(input[k] as int)
      case InIdent =>
        j < pos && curText == input[j..pos] && IsAlpha(input[j] as int) &&
        forall k :: j <= k < pos ==> IsAlnum(input[k] as int)
      case Done => LexesAs(input, start, j, Token(curType, curText), pos)
    }

    /** Where the machine stands after its transition and before it reads
        the next character: the look-ahead belongs to the token (or is a
        skipped blank) and is still to be consumed. */
    ghost predicate Pending(state: State, start: nat, j: nat, first: TokenType)
      reads this
    {
      start <= pos <= |input| && j == RunEnd(input, start, Blank) &&
      (state != Done ==> curType == first && first != End) &&
      match state
      case Start => pos < j && curText == ""
      case Saw(kind) =>
        IsSymbol(kind) && pos == j && j < |input| && curText == "" && [input[j]] == SymbolText(kind)
      case InNumber =>
        j <= pos < |input| && curText == input[j..pos] &&
        forall k :: j <= k <= pos ==> IsDigit(input[k] as int)
      case InIdent =>
        j <= pos < |input| && curText == input[j..pos] && IsAlpha(input[j] as int) &&
        forall k :: j <= k <= pos ==> IsAlnum(input[k] as int)
      case Done => LexesAs(input, start, j, Token(curType, curText), pos)
    }

    /** One switch on the state and the look-ahead character. */
    method Transition(state: State, ghost start: nat, ghost j: nat, ghost first: TokenType)
      returns (next: State, o: Outcome)
      requires state != Done && AtHead(state, start, j, first)
      modifies this
      ensures pos == old(pos) && curText == old(curText) && trace == old(trace)
      ensures o.Pass? ==> Pending(next, start, j, first)
      ensures var c := CharAt(input, j);
              o.Fail? ==> o == Fail(LexError(c)) && !StartsToken(c) && c != NEWLINE
    {
      var c := Look();
      next := state;
      o := Pass;
      match state
      case Start =>
        if IsSymbolChar(c) {
          next := Saw(SymbolKind(c));
        } else if IsDigit(c) {
          next := InNumber;
        } else if c == NEWLINE {
          curType := End;
          next := Done;
        } else if IsSpace(c) {
          // stay in Start
        } else if IsAlpha(c) {
          next := InIdent;
        } else {
          o := Fail(LexError(c));
        }
      case InNumber =>
        if !IsDigit(c) {
          NumberLexes(input, start, j, pos);
          curType := Num;
          next := Done;
        }
      case InIdent =>
        if !IsAlnum(c) {
          IdentLexes(input, start, j, pos);
          curType := Id;
          next := Done;
        }
      case Saw(kind) =>
        SymbolLexes(input, start, j, kind);
        curType := kind;
        next := Done;
    }

    /** Moves past the look-ahead character, keeping it in the token text
        unless it is white space. */
    method Consume(state: State, ghost start: nat, ghost j: nat, ghost first: TokenType)
      requires state != Done && Pending(state, start, j, first)
      modifies this
      ensures pos == old(pos) + 1 && curType == old(curType) && trace == old(trace)
      ensures AtHead(state, start, j, first)
    {
      var c := Look();
      if !IsSpace(c) && curType != End {
        SliceGrow(input, j, pos);
        curText := curText + [input[pos]];
      }
      pos := pos + 1;
    }
  }
}
