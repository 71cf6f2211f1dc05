/** Command lines of version 2: split into tokens, laid out in a 1024-byte buffer, and run. */
module UserCommands {
  import opened Bytes
  import opened Stores
  import opened Cells
  import opened Records
  import HashTable

  // Splitting a line.

  predicate IsSpace(c: byte) {
    c == 0x20 || 0x09 <= c <= 0x0d
  }

  predicate IsQuote(c: byte) {
    c == 0x27 || c == 0x22
  }

  /** The variables of the splitting loop. */
  datatype Lexer = Lexer(tokens: seq<Text>, plain: Text, quoted: Text, quotesOn: bool)

  function Collect(tokens: seq<Text>, buffer: Text): seq<Text> {
    if buffer == [] then tokens else tokens + [buffer]
  }

  function Step(x: Lexer, c: byte): Lexer {
    if x.quotesOn then
      if IsQuote(c) then Lexer(Collect(x.tokens, x.quoted), x.plain, [], false)
      else x.(quoted := x.quoted + [c])
    else if IsSpace(c) then x.(tokens := Collect(x.tokens, x.plain), plain := [])
    else if IsQuote(c) then x.(tokens := Collect(x.tokens, x.plain), plain := [], quotesOn := true)
    else x.(plain := x.plain + [c])
  }

  function Steps(x: Lexer, line: Text): Lexer
    decreases |line|
  {
    if line == [] then x else Steps(Step(x, line[0]), line[1..])
  }

  const Start := Lexer([], [], [], false)

  function Tokens(line: Text): seq<Text> {
    var end := Steps(Start, line);
    Collect(end.tokens, end.plain)
  }

  lemma {:induction false} StepsConcat(x: Lexer, s: Text, t: Text)
    ensures Steps(x, s + t) == Steps(Steps(x, s), t)
    decreases |s|
  {
    if s == [] {
      assert s + t == t;
    } else {
      assert (s + t)[1..] == s[1..] + t;
      StepsConcat(Step(x, s[0]), s[1..], t);
    }
  }

  // Printing tokens so that splitting gives them back.

  /** A token and how it is written: bare, or between quotes (either one may close the other),
      followed by a gap. */
  datatype Item =
    | Bare(text: Text, gap: Text)
    | Quoted(text: Text, open: byte, close: byte, gap: Text)
  {
    function Printed(): Text {
      match this
      case Bare(t, g) => t + g
      case Quoted(t, o, c, g) => [o] + t + [c] + g
    }

    predicate Printable() {
      && text != []
      && (forall c :: c in text ==> !IsQuote(c))
      && (forall c :: c in gap ==> IsSpace(c))
      && match this
         case Bare(t, g) => g != [] && forall c :: c in t ==> !IsSpace(c)
         case Quoted(_, o, c, _) => IsQuote(o) && IsQuote(c)
    }
  }

  function Print(items: seq<Item>): Text {
    if items == [] then [] else items[0].Printed() + Print(items[1..])
  }

  predicate AllPrintable(items: seq<Item>) {
    items == [] || (items[0].Printable() && AllPrintable(items[1..]))
  }

  function Texts(items: seq<Item>): seq<Text> {
    if items == [] then [] else [items[0].text] + Texts(items[1..])
  }

  lemma {:induction false} StepsGap(tokens: seq<Text>, gap: Text)
    requires forall c :: c in gap ==> IsSpace(c)
    ensures Steps(Lexer(tokens, [], [], false), gap) == Lexer(tokens, [], [], false)
  {
    if gap != [] {
      StepsGap(tokens, gap[1..]);
    }
  }

  lemma {:induction false} StepsPlain(tokens: seq<Text>, plain: Text, text: Text)
    requires forall c :: c in text ==> !IsSpace(c) && !IsQuote(c)
    ensures Steps(Lexer(tokens, plain, [], false), text) == Lexer(tokens, plain + text, [], false)
    decreases |text|
  {
    if text == [] {
      assert plain + text == plain;
    } else {
      StepsPlain(tokens, plain + [text[0]], text[1..]);
      assert plain + [text[0]] + text[1..] == plain + text;
    }
  }

  lemma {:induction false} StepsQuoted(tokens: seq<Text>, quoted: Text, text: Text)
    requires forall c :: c in text ==> !IsQuote(c)
    ensures Steps(Lexer(tokens, [], quoted, true), text) == Lexer(tokens, [], quoted + text, true)
    decreases |text|
  {
    if text == [] {
      assert quoted + text == quoted;
    } else {
      StepsQuoted(tokens, quoted + [text[0]], text[1..]);
      assert quoted + [text[0]] + text[1..] == quoted + text;
    }
  }

  lemma StepsItem(tokens: seq<Text>, item: Item)
    requires item.Printable()
    ensures Steps(Lexer(tokens, [], [], false), item.Printed()) == Lexer(tokens + [item.text], [], [], false)
  {
    var x := Lexer(tokens, [], [], false);
    match item
    case Bare(t, g) =>
      StepsConcat(x, t, g);
      StepsPlain(tokens, [], t);
      assert [] + t == t;
      StepsGap(tokens + [t], g[1..]);
    case Quoted(t, o, c, g) =>
      assert [o] + t + [c] + g == [o] + (t + ([c] + g));
      assert ([o] + (t + ([c] + g)))[1..] == t + ([c] + g);
      StepsConcat(Lexer(tokens, [], [], true), t, [c] + g);
      StepsQuoted(tokens, [], t);
      assert [] + t == t;
      assert ([c] + g)[1..] == g;
      StepsGap(tokens + [t], g);
  }

  lemma StepsTwo(tokens: seq<Text>, item: Item, rest: Text)
    requires item.Printable()
    ensures Steps(Lexer(tokens, [], [], false), item.Printed() + rest)
      == Steps(Lexer(tokens + [item.text], [], [], false), rest)
  {
    StepsConcat(Lexer(tokens, [], [], false), item.Printed(), rest);
    StepsItem(tokens, item);
  }

  /** Splitting undoes printing, whatever quotes and gaps the tokens are printed with. */
  lemma ParsePrint(items: seq<Item>)
    requires AllPrintable(items)
    ensures Tokens(Print(items)) == Texts(items)
  {
    StepsPrint([], items);
  }

  lemma {:induction false} StepsPrint(tokens: seq<Text>, items: seq<Item>)
    requires AllPrintable(items)
    ensures Steps(Lexer(tokens, [], [], false), Print(items)) == Lexer(tokens + Texts(items), [], [], false)
    decreases |items|
  {
    if items == [] {
      assert tokens + Texts(items) == tokens;
    } else {
      StepsTwo(tokens, items[0], Print(items[1..]));
      StepsPrint(tokens + [items[0].text], items[1..]);
      assert tokens + [items[0].text] + Texts(items[1..]) == tokens + ([items[0].text] + Texts(items[1..]));
    }
  }

  /** A last word needs no gap behind it. */
  lemma ParseLast(items: seq<Item>, word: Text)
    requires AllPrintable(items) && word != [] && forall c :: c in word ==> !IsSpace(c) && !IsQuote(c)
    ensures Tokens(Print(items) + word) == Texts(items) + [word]
  {
    StepsConcat(Start, Print(items), word);
    StepsPrint([], items);
    assert [] + Texts(items) == Texts(items);
    StepsPlain(Texts(items), [], word);
    assert [] + word == word;
  }

  // What the tokens ask for.

  datatype Operation = CmdGet | CmdSet | CmdDel | CmdNone

  const GET: Text := [0x67, 0x65, 0x74]
  const SET: Text := [0x73, 0x65, 0x74]
  const DEL: Text := [0x64, 0x65, 0x6c]

  /** The longest value that fits: 955 characters. */
  const MAX_VALUE: nat := RECORD_SIZE - KEY_SIZE - 6
  const MIN_TTL := 10

  function Cut(s: Text, n: nat): Text {
    if |s| > n then s[..n] else s
  }

  function Digits(s: Text, n: nat): nat {
    if s == [] || !(0x30 <= s[0] <= 0x39) then n else Digits(s[1..], 10 * n + ByteValue(s[0] - 0x30))
  }

  /** `atoi`, with no bound on the number it reads. */
  function Atoi(s: Text): int {
    if s == [] then 0
    else if IsSpace(s[0]) then Atoi(s[1..])
    else if s[0] == 0x2d then 0 - Digits(s[1..], 0)
    else if s[0] == 0x2b then Digits(s[1..], 0)
    else Digits(s, 0)
  }

  /** What a line asks for; a set has a time to live and a value. */
  datatype Request = Request(operation: Operation, ttl: int, key: Text, value: Text)

  const Nothing := Request(CmdNone, 0, [], [])

  function Interpret(tokens: seq<Text>): Request {
    if |tokens| < 2 then Nothing
    else if tokens[0] == GET then Request(CmdGet, 0, Cut(tokens[1], KEY_SIZE - 1), [])
    else if tokens[0] == SET then
      if |tokens| < 4 then Nothing
      else
        var ttl := Atoi(tokens[1]);
        Request(CmdSet, if ttl < MIN_TTL then MIN_TTL else ttl, Cut(tokens[2], KEY_SIZE - 1), Cut(tokens[3], MAX_VALUE))
    else if tokens[0] == DEL then Request(CmdDel, 0, Cut(tokens[1], KEY_SIZE - 1), [])
    else Nothing
  }

  // What the numbers of a line mean.

  predicate IsDigit(c: byte) {
    0x30 <= c <= 0x39
  }

  predicate AllDigits(s: Text) {
    forall i :: 0 <= i < |s| ==> IsDigit(s[i])
  }

  function DigitOf(d: nat): (c: byte)
    requires d < 10
    ensures IsDigit(c)
  {
    [0x30, 0x31, 0x32, 0x33, 0x34, 0x35, 0x36, 0x37, 0x38, 0x39][d]
  }

  lemma {:induction false} DigitValue(d: nat)
    requires d < 10
    ensures ByteValue(DigitOf(d) - 0x30) == d
  {
    if d > 0 {
      DigitValue(d - 1);
      assert DigitOf(d) - 0x30 - 1 == DigitOf(d - 1) - 0x30;
    }
  }

  /** A number as it is written. */
  function Decimal(n: nat): (s: Text)
    ensures s != [] && AllDigits(s)
  {
    if n < 10 then [DigitOf(n)] else Decimal(n / 10) + [DigitOf(n % 10)]
  }

  lemma {:induction false} DigitsMore(s: Text, n: nat, d: nat, rest: Text)
    requires AllDigits(s) && d < 10 && (rest == [] || !IsDigit(rest[0]))
    ensures Digits(s + [DigitOf(d)] + rest, n) == 10 * Digits(s, n) + d
    decreases |s|
  {
    var t := s + [DigitOf(d)] + rest;
    DigitValue(d);
    if s == [] {
      assert t[1..] == rest && t[0] == DigitOf(d);
    } else {
      assert t[0] == s[0] && t[1..] == s[1..] + [DigitOf(d)] + rest;
      DigitsMore(s[1..], 10 * n + ByteValue(s[0] - 0x30), d, rest);
    }
  }

  lemma {:induction false} DecimalRead(n: nat, rest: Text)
    requires rest == [] || !IsDigit(rest[0])
    ensures Digits(Decimal(n) + rest, 0) == n
  {
    if n < 10 {
      assert [] + [DigitOf(n)] + rest == Decimal(n) + rest;
      DigitsMore([], 0, n, rest);
    } else {
      DecimalRead(n / 10, []);
      assert Decimal(n / 10) + [] == Decimal(n / 10);
      DigitsMore(Decimal(n / 10), 0, n % 10, rest);
    }
  }

  lemma {:induction false} AtoiBlanks(blanks: Text, s: Text)
    requires forall i :: 0 <= i < |blanks| ==> blanks[i] == 0x20 || 0x09 <= blanks[i] <= 0x0d
    ensures Atoi(blanks + s) == Atoi(s)
    decreases |blanks|
  {
    if blanks == [] {
      assert blanks + s == s;
    } else {
      assert (blanks + s)[1..] == blanks[1..] + s;
      AtoiBlanks(blanks[1..], s);
    }
  }

  lemma AtoiSigned(digits: Text)
    requires digits != [] && IsDigit(digits[0])
    ensures Atoi(digits) == Atoi([0x2b] + digits) == Digits(digits, 0)
    ensures Atoi([0x2d] + digits) == 0 - Digits(digits, 0)
  {
    assert !IsSpace(digits[0]) && digits[0] != 0x2b && digits[0] != 0x2d;
    assert ([0x2b] + digits)[1..] == digits && ([0x2d] + digits)[1..] == digits;
  }

  /** A number printed, behind any blanks and with or without a sign, is read back, whatever follows its digits. */
  lemma AtoiPrinted(blanks: Text, n: nat, rest: Text)
    requires forall i :: 0 <= i < |blanks| ==> blanks[i] == 0x20 || 0x09 <= blanks[i] <= 0x0d
    requires rest == [] || !(0x30 <= rest[0] <= 0x39)
    ensures Atoi(blanks + (Decimal(n) + rest)) == n
    ensures Atoi(blanks + ([0x2b] + (Decimal(n) + rest))) == n
    ensures Atoi(blanks + ([0x2d] + (Decimal(n) + rest))) + n == 0
  {
    var digits := Decimal(n) + rest;
    DecimalRead(n, rest);
    assert digits[0] == Decimal(n)[0];
    AtoiSigned(digits);
    AtoiBlanks(blanks, digits);
    AtoiBlanks(blanks, [0x2b] + digits);
    AtoiBlanks(blanks, [0x2d] + digits);
  }

  /** The printing of a number behind blanks, with or without a plus sign. */
  ghost predicate Prints(s: Text, blanks: Text, n: nat) {
    && (forall i :: 0 <= i < |blanks| ==> blanks[i] == 0x20 || 0x09 <= blanks[i] <= 0x0d)
    && (s == blanks + Decimal(n) || s == blanks + ([0x2b] + Decimal(n)))
  }

  lemma PrintsRead(s: Text, blanks: Text, n: nat)
    requires Prints(s, blanks, n)
    ensures Atoi(s) == n
  {
    AtoiPrinted(blanks, n, []);
    assert Decimal(n) + [] == Decimal(n);
  }

  /** The request of a set line: the number printed in it is the time to live, but never less than 10 seconds. */
  lemma SetLineAsks(tokens: seq<Text>, blanks: Text, n: nat)
    requires |tokens| >= 4 && tokens[0] == [0x73, 0x65, 0x74] && Prints(tokens[1], blanks, n)
    ensures Interpret(tokens) == Request(CmdSet, if n >= 10 then n else 10, Cut(tokens[2], 62), Cut(tokens[3], 955))
  {
    PrintsRead(tokens[1], blanks, n);
    assert GET[0] == 0x67;
  }

  /** The request of a get line and of a del line. */
  lemma GetLineAsks(tokens: seq<Text>)
    requires |tokens| >= 2
    ensures tokens[0] == [0x67, 0x65, 0x74] ==> Interpret(tokens) == Request(CmdGet, 0, Cut(tokens[1], 62), [])
    ensures tokens[0] == [0x64, 0x65, 0x6c] ==> Interpret(tokens) == Request(CmdDel, 0, Cut(tokens[1], 62), [])
  {
    assert GET[0] == 0x67 && SET[0] == 0x73 && DEL[0] == 0x64;
  }

  /** No blank and no quote. */
  predicate BareWord(t: Text) {
    t != [] && forall i :: 0 <= i < |t| ==> t[i] != 0x20 && !(0x09 <= t[i] <= 0x0d) && t[i] != 0x22 && t[i] != 0x27
  }

  predicate NoQuotes(t: Text) {
    t != [] && forall i :: 0 <= i < |t| ==> t[i] != 0x22 && t[i] != 0x27
  }

  /** `get key` */
  function GetLine(key: Text): Text {
    [0x67, 0x65, 0x74, 0x20] + key
  }

  /** `set n key "value"` */
  function SetLine(n: nat, key: Text, value: Text): Text {
    [0x73, 0x65, 0x74, 0x20] + Decimal(n) + [0x20] + key + [0x20, 0x22] + value + [0x22]
  }

  /** `del key` */
  function DelLine(key: Text): Text {
    [0x64, 0x65, 0x6c, 0x20] + key
  }

  lemma GetLineSplits(key: Text)
    requires BareWord(key)
    ensures Tokens(GetLine(key)) == [[0x67, 0x65, 0x74], key]
    ensures Tokens(DelLine(key)) == [[0x64, 0x65, 0x6c], key]
  {
    TwoWords([0x67, 0x65, 0x74], 0x20, key, 0x22, key, 0x22);
    TwoWords([0x64, 0x65, 0x6c], 0x20, key, 0x22, key, 0x22);
    assert [0x67, 0x65, 0x74] + [0x20] + key == GetLine(key);
    assert [0x64, 0x65, 0x6c] + [0x20] + key == DelLine(key);
  }

  /** Any blank parts two words, and either quote opens a quotation that either one closes. */
  lemma TwoWords(a: Text, gap: byte, b: Text, open: byte, quoted: Text, close: byte)
    requires BareWord(a) && BareWord(b) && (gap == 0x20 || 0x09 <= gap <= 0x0d)
    requires NoQuotes(quoted) && (open == 0x22 || open == 0x27) && (close == 0x22 || close == 0x27)
    ensures Tokens(a + [gap] + b) == [a, b]
    ensures Tokens(a + [gap] + ([open] + quoted + [close])) == [a, quoted]
  {
    var item, last := Bare(a, [gap]), Quoted(quoted, open, close, []);
    assert [item][1..] == [] && item.Printed() + [] == item.Printed();
    assert Texts([item]) + [b] == [a, b];
    ParseLast([item], b);
    ItemAhead(last, [], [last]);
    ItemAhead(item, [last], [item, last]);
    assert last.Printed() == [open] + quoted + [close];
    assert last.Printed() + [] == last.Printed();
    ParsePrint([item, last]);
  }

  /** A quotation that is not closed is lost, and so is an empty one. */
  lemma QuotesLost(a: Text, open: byte, rest: Text, close: byte)
    requires BareWord(a) && (open == 0x22 || open == 0x27) && (close == 0x22 || close == 0x27)
    requires forall i :: 0 <= i < |rest| ==> rest[i] != 0x22 && rest[i] != 0x27
    ensures Tokens(a + [0x20] + ([open] + rest)) == [a]
    ensures Tokens(a + [0x20] + [open, close]) == [a]
  {
    var item, after := Bare(a, [0x20]), Lexer([a], [], [], false);
    StepsItem([], item);
    assert item.Printed() == a + [0x20] && [] + [a] == [a];
    StepsConcat(Start, a + [0x20], [open] + rest);
    StepsConcat(Start, a + [0x20], [open, close]);
    assert ([open] + rest)[1..] == rest && [open, close][1..] == [close] && [close][1..] == [];
    StepsQuoted([a], [], rest);
    var within := Lexer([a], [], [], true);
    assert Steps(after, [open, close]) == Steps(within, [close]) == Step(within, close);
  }

  lemma SetLineSplits(n: nat, key: Text, value: Text)
    requires BareWord(key) && NoQuotes(value)
    ensures Tokens(SetLine(n, key, value)) == [[0x73, 0x65, 0x74], Decimal(n), key, value]
  {
    var a, b, c := Bare([0x73, 0x65, 0x74], [0x20]), Bare(Decimal(n), [0x20]), Bare(key, [0x20]);
    var d := Quoted(value, 0x22, 0x22, []);
    DecimalBare(n);
    FourItems(a, b, c, d);
    assert a.Printed() == [0x73, 0x65, 0x74, 0x20];
    assert d.Printed() == [0x22] + value + [0x22];
    assert SetLine(n, key, value) == a.Printed() + (b.Printed() + (c.Printed() + d.Printed()));
    ParsePrint([a, b, c, d]);
  }

  lemma DecimalBare(n: nat)
    ensures Bare(Decimal(n), [0x20]).Printable()
  {
    assert forall i :: 0 <= i < |Decimal(n)| ==> IsDigit(Decimal(n)[i]);
  }

  lemma FourItems(a: Item, b: Item, c: Item, d: Item)
    requires a.Printable() && b.Printable() && c.Printable() && d.Printable()
    ensures AllPrintable([a, b, c, d]) && Texts([a, b, c, d]) == [a.text, b.text, c.text, d.text]
    ensures Print([a, b, c, d]) == a.Printed() + (b.Printed() + (c.Printed() + d.Printed()))
  {
    ItemAhead(d, [], [d]);
    ItemAhead(c, [d], [c, d]);
    ItemAhead(b, [c, d], [b, c, d]);
    ItemAhead(a, [b, c, d], [a, b, c, d]);
    assert d.Printed() + [] == d.Printed();
  }

  lemma ItemAhead(a: Item, rest: seq<Item>, all: seq<Item>)
    requires a.Printable() && AllPrintable(rest) && |all| == |rest| + 1 && all[0] == a && all[1..] == rest
    ensures AllPrintable(all) && Texts(all) == [a.text] + Texts(rest) && Print(all) == a.Printed() + Print(rest)
  {
  }

  ghost predicate AllText(tokens: seq<Text>) {
    forall i :: 0 <= i < |tokens| ==> IsText(tokens[i])
  }

  lemma {:induction false} StepsText(x: Lexer, line: Text)
    requires IsText(line) && AllText(x.tokens) && IsText(x.plain) && IsText(x.quoted)
    ensures AllText(Steps(x, line).tokens) && IsText(Steps(x, line).plain)
    decreases |line|
  {
    if line != [] {
      assert line[0] != 0;
      StepsText(Step(x, line[0]), line[1..]);
    }
  }

  lemma TokensText(line: Text)
    requires IsText(line)
    ensures AllText(Tokens(line))
  {
    StepsText(Start, line);
  }

  /** Whatever the line, key and value fit into a record beside their NULs. */
  lemma RequestFits(line: Text)
    requires IsText(line)
    ensures var r := Interpret(Tokens(line));
            FitsKey(r.key) && FitsValue(P6, r.value) && (r.operation == CmdSet ==> r.ttl >= MIN_TTL)
  {
    TokensText(line);
  }

  lemma ZerosHold(z: seq<byte>)
    requires |z| == RECORD_SIZE && forall q :: 0 <= q < RECORD_SIZE ==> z[q] == 0
    ensures CStr(z[..KEY_SIZE]) == [] && CStr(z[KEY_SIZE + 1..]) == []
  {
    CStrIs(z[..KEY_SIZE], []);
    CStrIs(z[KEY_SIZE + 1..], []);
  }

  /** Key and value, copied to their places in a zeroed buffer, are read back from there. */
  lemma ParamsHold(z: seq<byte>, v: seq<byte>, p: seq<byte>, key: Text, value: Text)
    requires |z| == RECORD_SIZE && forall q :: 0 <= q < RECORD_SIZE ==> z[q] == 0
    requires IsText(key) && |key| < KEY_SIZE && IsText(value) && |value| <= MAX_VALUE
    requires if value == [] then v == z || v == Splice(z, KEY_SIZE + 1, [0])
      else v == Splice(z, KEY_SIZE + 1, value + [0])
    requires p == Splice(v, 0, key + [0])
    ensures CStr(p[..KEY_SIZE]) == key && CStr(p[KEY_SIZE + 1..]) == value
  {
    ValuePlaced(z, v, value);
    SpliceInside(v, 0, key + [0]);
    SpliceApart(v, 0, key + [0], KEY_SIZE + 1, KEY_SIZE + 2 + |value|);
    Subslice(p, 0, KEY_SIZE, 0, |key| + 1);
    FieldHolds(p[..KEY_SIZE], key);
    Subslice(p, KEY_SIZE + 1, RECORD_SIZE, 0, |value| + 1);
    FieldHolds(p[KEY_SIZE + 1..], value);
  }

  lemma ValuePlaced(z: seq<byte>, v: seq<byte>, value: Text)
    requires |z| == RECORD_SIZE && forall q :: 0 <= q < RECORD_SIZE ==> z[q] == 0
    requires |value| <= MAX_VALUE
    requires if value == [] then v == z || v == Splice(z, KEY_SIZE + 1, [0])
      else v == Splice(z, KEY_SIZE + 1, value + [0])
    ensures v[KEY_SIZE + 1..KEY_SIZE + 2 + |value|] == value + [0]
  {
    SpliceInside(z, KEY_SIZE + 1, value + [0]);
    assert value == [] ==> value + [0] == [0];
  }

  class UserCommand {
    var operation: Operation
    var ttl: int
    const paramsData: array<byte>
    var tokens: seq<Text>

    constructor ()
      ensures fresh(paramsData) && Blank()
    {
      operation, ttl, tokens := CmdNone, 0, [];
      paramsData := new byte[RECORD_SIZE](_ => 0);
    }

    ghost predicate Blank()
      reads this, paramsData
    {
      && operation == CmdNone && ttl == 0 && tokens == []
      && paramsData.Length == RECORD_SIZE
      && forall q :: 0 <= q < RECORD_SIZE ==> paramsData[q] == 0
    }

    /** The key at the front of the buffer, and the value behind the key's field. */
    ghost predicate Holds(r: Request)
      reads this, paramsData
    {
      && operation == r.operation && ttl == r.ttl
      && paramsData.Length == RECORD_SIZE
      && CStr(paramsData[..KEY_SIZE]) == r.key && |r.key| < KEY_SIZE
      && CStr(paramsData[KEY_SIZE + 1..]) == r.value && |r.value| <= MAX_VALUE
    }

    method CollectTokenFromBuffer(s: Text) returns (cleared: Text)
      modifies `tokens
      ensures tokens == Collect(old(tokens), s) && cleared == []
    {
      if |s| > 0 {
        tokens := tokens + [s];
      }
      cleared := [];
    }

    method Parse(line: Text)
      requires tokens == []
      modifies `tokens
      ensures tokens == Tokens(line)
    {
      var plain, quoted, quotesOn := [], [], false;
      for i := 0 to |line|
        invariant quotesOn || quoted == []
        invariant Steps(Lexer(tokens, plain, quoted, quotesOn), line[i..]) == Steps(Start, line)
      {
        var chr := line[i];
        assert line[i..][1..] == line[i + 1..];
        if quotesOn {
          if IsQuote(chr) {
            quoted := CollectTokenFromBuffer(quoted);
            quotesOn := false;
          } else {
            quoted := quoted + [chr];
          }
        } else {
          if IsSpace(chr) {
            plain := CollectTokenFromBuffer(plain);
          } else if IsQuote(chr) {
            plain := CollectTokenFromBuffer(plain);
            quotesOn := true;
          } else {
            plain := plain + [chr];
          }
        }
      }
      plain := CollectTokenFromBuffer(plain);
    }

    /** `strncpy` of a string and its NUL into the buffer. */
    method CopyParam(p: nat, s: Text)
      requires p + |s| < paramsData.Length
      modifies paramsData
      ensures paramsData[..] == Splice(old(paramsData[..]), p, s + [0])
    {
      forall q | 0 <= q < |s| {
        paramsData[p + q] := s[q];
      }
      paramsData[p + |s|] := 0;
    }

    /** Reads one line into a new command. */
    method ReadLine(line: Text)
      requires IsText(line) && Blank()
      modifies this, paramsData
      ensures Holds(Interpret(Tokens(line)))
    {
      TokensText(line);
      ghost var zeros := paramsData[..];
      ZerosHold(zeros);
      Parse(line);
      if |tokens| < 2 {
        return;
      }
      var operationString, keyStr, valueStr := tokens[0], [], [];
      if operationString == GET {
        operation, keyStr := CmdGet, tokens[1];
      } else if operationString == SET {
        if |tokens| < 4 {
          return;
        }
        operation, keyStr := CmdSet, tokens[2];
        ttl := Atoi(tokens[1]);
        if ttl < MIN_TTL {
          ttl := MIN_TTL;
        }
        valueStr := StoreValue(tokens[3]);
      } else if operationString == DEL {
        operation, keyStr := CmdDel, tokens[1];
      }
      StoreKey(zeros, keyStr, valueStr);
      tokens := [];
    }

    /** The first copy: the value, cut to 955 characters. */
    method StoreValue(valueStr: Text) returns (value: Text)
      requires IsText(valueStr) && paramsData.Length == RECORD_SIZE
      modifies paramsData
      ensures value == Cut(valueStr, MAX_VALUE) && IsText(value)
      ensures paramsData[..] == Splice(old(paramsData[..]), KEY_SIZE + 1, value + [0])
    {
      value := valueStr;
      if |value| > RECORD_SIZE - KEY_SIZE - 6 {
        value := value[..RECORD_SIZE - KEY_SIZE - 6];
      }
      CopyParam(KEY_SIZE + 1, value);
    }

    /** The last copy: the key, cut to 62 characters. */
    method StoreKey(ghost zeros: seq<byte>, keyStr: Text, ghost valueStr: Text)
      requires IsText(keyStr) && IsText(valueStr) && |valueStr| <= MAX_VALUE
      requires |zeros| == paramsData.Length == RECORD_SIZE && forall q :: 0 <= q < RECORD_SIZE ==> zeros[q] == 0
      requires var v := paramsData[..];
               if valueStr == [] then v == zeros || v == Splice(zeros, KEY_SIZE + 1, [0])
               else v == Splice(zeros, KEY_SIZE + 1, valueStr + [0])
      modifies paramsData
      ensures CStr(paramsData[..KEY_SIZE]) == Cut(keyStr, KEY_SIZE - 1)
      ensures CStr(paramsData[KEY_SIZE + 1..]) == valueStr
    {
      var key := if |keyStr| > KEY_SIZE - 1 then keyStr[..KEY_SIZE - 1] else keyStr;
      ghost var v := paramsData[..];
      CopyParam(0, key);
      ParamsHold(zeros, v, paramsData[..], key, valueStr);
      assert paramsData[..KEY_SIZE] == paramsData[..][..KEY_SIZE];
      assert paramsData[KEY_SIZE + 1..] == paramsData[..][KEY_SIZE + 1..];
    }

    /** A value found is copied over the buffer's value field and sent from there. */
    method ReceiveValue(found: Text) returns (value: Text)
      requires IsText(found) && |found| <= MAX_VALUE && paramsData.Length == RECORD_SIZE
      modifies paramsData
      ensures value == found
    {
      ghost var before := paramsData[..];
      CopyParam(KEY_SIZE + 1, found);
      SpliceInside(before, KEY_SIZE + 1, found + [0]);
      Subslice(paramsData[..], KEY_SIZE + 1, RECORD_SIZE, 0, |found| + 1);
      assert paramsData[KEY_SIZE + 1..] == paramsData[..][KEY_SIZE + 1..RECORD_SIZE];
      FieldHolds(paramsData[KEY_SIZE + 1..], found);
      value := CStr(paramsData[KEY_SIZE + 1..]);
    }

    /** A value found is copied into the command's own buffer, from where it is sent. */
    method ExecuteGet(table: HashTable.Table, key: Text, now: int, ghost r: Request) returns (response: Response)
      requires Holds(r) && FitsKey(r.key) && FitsValue(P6, r.value) && r.operation == CmdGet && key == r.key
      requires table.cfg == P6 && table.Valid() && table.Unlocked() && table.data != paramsData
      modifies table, table.data, paramsData
      ensures table.Valid() && table.Unlocked()
      ensures (table.store, response) == Respond(old(table.store), r, now)
    {
      var status, found := table.Get(key);
      if status == 0 {
        var value := ReceiveValue(found);
        response := Found(value);
      } else {
        response := NotFound;
      }
    }

    method ExecuteSet(table: HashTable.Table, key: Text, value: Text, now: int, ghost r: Request)
          returns (response: Response)
      requires Holds(r) && FitsKey(r.key) && FitsValue(P6, r.value) && r.operation == CmdSet && key == r.key
        && value == r.value
      requires table.cfg == P6 && table.Valid() && table.Unlocked() && table.data != paramsData
      modifies table, table.data, paramsData
      ensures table.Valid() && table.Unlocked()
      ensures (table.store, response) == Respond(old(table.store), r, now)
    {
      var status := table.Set(key, value, ttl, now);
      response := if status == 0 then SetOk else Degraded;
    }

    method ExecuteDel(table: HashTable.Table, key: Text, now: int, ghost r: Request) returns (response: Response)
      requires Holds(r) && FitsKey(r.key) && FitsValue(P6, r.value) && r.operation == CmdDel && key == r.key
      requires table.cfg == P6 && table.Valid() && table.Unlocked() && table.data != paramsData
      modifies table, table.data, paramsData
      ensures table.Valid() && table.Unlocked()
      ensures (table.store, response) == Respond(old(table.store), r, now)
    {
      var status := table.Del(key);
      response := if status == 0 then DelOk else NotFound;
    }

    /** The worker's answer to this command. */
    method ExecuteQuery(table: HashTable.Table, now: int, ghost r: Request) returns (response: Response)
      requires Holds(r) && FitsKey(r.key) && FitsValue(P6, r.value)
      requires table.cfg == P6 && table.Valid() && table.Unlocked() && table.data != paramsData
      modifies table, table.data, paramsData
      ensures table.Valid() && table.Unlocked()
      ensures (table.store, response) == Respond(old(table.store), r, now)
    {
      var key, value := CStr(paramsData[..KEY_SIZE]), CStr(paramsData[KEY_SIZE + 1..]);
      match operation
      case CmdGet => response := ExecuteGet(table, key, now, r);
      case CmdSet => response := ExecuteSet(table, key, value, now, r);
      case CmdDel => response := ExecuteDel(table, key, now, r);
      case CmdNone => response := Invalid;
    }
  }

  datatype Response = Found(value: Text) | SetOk | DelOk | NotFound | Degraded | Invalid

  /** The command a request makes of the table at a given time. */
  function CommandOf(r: Request, now: int): Command
    requires !r.operation.CmdNone?
  {
    match r.operation
    case CmdGet => Command.Get(r.key)
    case CmdSet => Command.Set(r.key, Entry(r.value, ToInt32(r.ttl + now)))
    case CmdDel => Command.Del(r.key)
  }

  /** What a set line stores has a deadline past 0, as long as the clock is not negative and the sum does not
      overflow. */
  lemma RequestDated(line: Text, now: int)
    requires IsText(line) && Interpret(Tokens(line)).operation == CmdSet
    requires 0 <= now && Interpret(Tokens(line)).ttl + now <= INT_MAX
    ensures AllDated([CommandOf(Interpret(Tokens(line)), now)])
  {
    RequestFits(line);
  }

  /** What a request does to the store, and the answer sent for it. */
  function Respond(s: Store, r: Request, now: int): (Store, Response) {
    if r.operation.CmdNone? then (s, Invalid)
    else
      var (after, reply) := Apply(s, P6.Size(), CommandOf(r, now));
      (after,
       match reply
       case Value(v) => Found(v)
       case Done => if r.operation.CmdSet? then SetOk else DelOk
       case Fail => if r.operation.CmdSet? then Degraded else NotFound)
  }

  /** A value set by one line comes back from the next, whole up to 955 characters, under any key
      that starts with the same 62. */
  lemma SetThenGet(s: Store, setLine: Text, getLine: Text, setTime: int, getTime: int)
    requires IsText(setLine) && IsText(getLine)
    requires var t := Tokens(setLine); |t| >= 4 && t[0] == SET
    requires var t := Tokens(getLine); |t| >= 2 && t[0] == GET
    requires Cut(Tokens(setLine)[2], 62) == Cut(Tokens(getLine)[1], 62)
    ensures var (afterSet, setReply) := Respond(s, Interpret(Tokens(setLine)), setTime);
            && (setReply == SetOk || setReply == Degraded)
            && (setReply == SetOk ==>
                  Respond(afterSet, Interpret(Tokens(getLine)), getTime)
                    == (afterSet, Found(Cut(Tokens(setLine)[3], 955))))
            && (setReply == Degraded ==>
                  Respond(afterSet, Interpret(Tokens(getLine)), getTime) == (s, NotFound))
  {
    var r, q := Interpret(Tokens(setLine)), Interpret(Tokens(getLine));
    assert GET[0] != SET[0];
    assert r.operation == CmdSet && q.operation == CmdGet && r.key == q.key;
    var c := CommandOf(r, setTime);
    assert Apply(s, P6.Size(), c).1 == Done ==> r.key in Apply(s, P6.Size(), c).0.live;
  }

  /** A client that sends a set line and then a get line to a worker nobody else uses. */
  method SetAndGet(table: HashTable.Table, setLine: Text, getLine: Text, setTime: int, getTime: int)
      returns (setReply: Response, getReply: Response)
    requires table.cfg == P6 && table.Valid() && table.Unlocked()
    requires IsText(setLine) && IsText(getLine)
    requires var t := Tokens(setLine); |t| >= 4 && t[0] == SET
    requires var t := Tokens(getLine); |t| >= 2 && t[0] == GET
    requires Cut(Tokens(setLine)[2], 62) == Cut(Tokens(getLine)[1], 62)
    modifies table, table.data
    ensures table.Valid() && table.Unlocked()
    ensures setReply == SetOk || setReply == Degraded
    ensures getReply == if setReply == SetOk then Found(Cut(Tokens(setLine)[3], 955)) else NotFound
  {
    SetThenGet(table.store, setLine, getLine, setTime, getTime);
    setReply := RunLine(table, setLine, setTime);
    getReply := RunLine(table, getLine, getTime);
  }

  /** A line from a client, read into a new command and executed. */
  method RunLine(table: HashTable.Table, line: Text, now: int) returns (response: Response)
    requires table.cfg == P6 && table.Valid() && table.Unlocked() && IsText(line)
    modifies table, table.data
    ensures table.Valid() && table.Unlocked()
    ensures (table.store, response) == Respond(old(table.store), Interpret(Tokens(line)), now)
  {
    var cmd := new UserCommand();
    cmd.ReadLine(line);
    RequestFits(line);
    response := cmd.ExecuteQuery(table, now, Interpret(Tokens(line)));
  }

  predicate Lives(s: Store, key: Text, entry: Entry) {
    key in s.live && s.live[key] == entry
  }

  /** What a set line does to the store, the number in it being the life of the entry. */
  lemma SetLineStores(s: Store, n: nat, key: Text, value: Text, now: int)
    requires BareWord(key) && NoQuotes(value) && 0 <= now && now + (if n >= 10 then n else 10) <= INT_MAX
    ensures var (after, reply) := Respond(s, Interpret(Tokens(SetLine(n, key, value))), now);
            && reply == (if Cut(key, 62) in s.live || s.spent < 1024 then SetOk else Degraded)
            && (reply == SetOk ==>
                  Lives(after, Cut(key, 62), Entry(Cut(value, 955), now + if n >= 10 then n else 10)))
            && (reply == Degraded ==> Cut(key, 62) !in after.live)
  {
    ProductIsTimes(8, 128);
    SetLineSplits(n, key, value);
    assert [] + Decimal(n) == Decimal(n);
    SetLineAsks(Tokens(SetLine(n, key, value)), [], n);
  }

  lemma GetLineFinds(s: Store, key: Text, now: int)
    requires BareWord(key)
    ensures Respond(s, Interpret(Tokens(GetLine(key))), now)
         == (s, if Cut(key, 62) in s.live then Found(s.live[Cut(key, 62)].value) else NotFound)
  {
    GetLineSplits(key);
    GetLineAsks(Tokens(GetLine(key)));
  }

  /** What a del line does: it takes its key out and says whether it was there. */
  lemma DelLineRemoves(s: Store, key: Text, now: int)
    requires BareWord(key)
    ensures Respond(s, Interpret(Tokens(DelLine(key))), now)
         == (s.(live := s.live - {Cut(key, 62)}), if Cut(key, 62) in s.live then DelOk else NotFound)
  {
    GetLineSplits(key);
    GetLineAsks(Tokens(DelLine(key)));
    assert Cut(key, 62) !in s.live ==> s.live - {Cut(key, 62)} == s.live;
  }

  /** A line that is none of the three commands, or a set without a value, changes nothing and is refused. */
  lemma OtherLinesRefused(s: Store, tokens: seq<Text>, now: int)
    requires
      || |tokens| < 2
      || (tokens[0] == [0x73, 0x65, 0x74] && |tokens| < 4)
      || (tokens[0] != [0x67, 0x65, 0x74] && tokens[0] != [0x73, 0x65, 0x74] && tokens[0] != [0x64, 0x65, 0x6c])
    ensures Respond(s, Interpret(tokens), now) == (s, Invalid)
  {
    assert GET[0] == 0x67 && SET[0] == 0x73;
  }

  /** When a collection takes an entry out of the store. */
  lemma Outlives(cells: seq<Cell>, s: Store, clock: seq<int>, key: Text, death: int)
    requires Holds(cells, s) && |clock| == |cells| && key in s.live
    requires s.live[key].deadline == death && death > 0
    requires forall i :: 0 <= i < |clock| ==> INT_MIN <= clock[i] <= INT_MAX
    ensures (forall i :: 0 <= i < |clock| ==> clock[i] <= death) ==> key !in Dead(cells, clock)
    ensures (forall i :: 0 <= i < |clock| ==> clock[i] > death) ==> key in Dead(cells, clock)
  {
    var i := DeadExactly(cells, s, clock, key);
    assert ToInt32(clock[i]) == clock[i];
  }

  method SendSet(table: HashTable.Table, n: nat, key: Text, value: Text, now: int) returns (reply: Response)
    requires table.cfg == P6 && table.Valid() && table.Unlocked()
    requires BareWord(key) && NoQuotes(value) && IsText(key) && IsText(value)
    requires 0 <= now && now + (if n >= 10 then n else 10) <= INT_MAX
    modifies table, table.data
    ensures table.Valid() && table.Unlocked()
    ensures reply == if Cut(key, 62) in old(table.store).live || old(table.store).spent < 1024 then SetOk else Degraded
    ensures reply == SetOk ==>
              Lives(table.store, Cut(key, 62), Entry(Cut(value, 955), now + if n >= 10 then n else 10))
    ensures reply == Degraded ==> Cut(key, 62) !in table.store.live
  {
    LinesAreText(n, key, value);
    SetLineStores(table.store, n, key, value, now);
    reply := RunLine(table, SetLine(n, key, value), now);
  }

  method SendGet(table: HashTable.Table, key: Text, now: int) returns (reply: Response)
    requires table.cfg == P6 && table.Valid() && table.Unlocked() && BareWord(key) && IsText(key)
    modifies table, table.data
    ensures table.Valid() && table.Unlocked() && table.store == old(table.store)
    ensures reply == if Cut(key, 62) in table.store.live then Found(table.store.live[Cut(key, 62)].value) else NotFound
  {
    LinesAreText(0, key, []);
    GetLineFinds(table.store, key, now);
    reply := RunLine(table, GetLine(key), now);
  }

  /** A client sets a value for n seconds; the worker collects its garbage; the client gets. As long as all readings
      of the collection's clock are within n seconds of the set, or within 10 if n is less, the value comes back; once
      all are past that, it is gone. */
  method SetCollectGet(table: HashTable.Table, n: nat, key: Text, value: Text, setTime: int, clock: seq<int>,
        getTime: int) returns (setReply: Response, getReply: Response)
    requires table.cfg == P6 && table.Valid() && table.Unlocked() && |clock| == 1024
    requires BareWord(key) && NoQuotes(value) && IsText(key) && IsText(value)
    requires 0 <= setTime && setTime + (if n >= 10 then n else 10) <= INT_MAX
    requires forall i :: 0 <= i < |clock| ==> INT_MIN <= clock[i] <= INT_MAX
    modifies table, table.data
    ensures table.Valid() && table.Unlocked()
    ensures setReply
         == if Cut(key, 62) in old(table.store).live || old(table.store).spent < 1024 then SetOk else Degraded
    ensures setReply == Degraded ==> getReply == NotFound
    ensures var death := setTime + if n >= 10 then n else 10;
            && (setReply == SetOk && (forall i :: 0 <= i < |clock| ==> clock[i] <= death) ==>
                  getReply == Found(Cut(value, 955)))
            && ((forall i :: 0 <= i < |clock| ==> clock[i] > death) ==> getReply == NotFound)
  {
    ProductIsTimes(8, 128);
    setReply := SendSet(table, n, key, value, setTime);
    if setReply == SetOk {
      Outlives(table.cells, table.store, clock, Cut(key, 62), setTime + if n >= 10 then n else 10);
    }
    var _ := table.CollectGarbage(clock);
    getReply := SendGet(table, key, getTime);
  }

  lemma LinesAreText(n: nat, key: Text, value: Text)
    requires IsText(key) && IsText(value)
    ensures IsText(SetLine(n, key, value)) && IsText(GetLine(key))
  {
    assert forall i :: 0 <= i < |Decimal(n)| ==> IsDigit(Decimal(n)[i]);
  }
}
