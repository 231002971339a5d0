/**
 * JSON text over UTF-16 code units: the pretty printer of JSON.stringify with an indent of two,
 * and a parser for the JSON grammar (RFC 8259) with integer numbers. The newline is a parameter
 * of the printer, so that the same text can be followed through a CRLF conversion.
 */
module JsonText {
  import opened Common

  type Code = c: int | 0 <= c < 0x1_0000
  type Str = seq<Code>

  const LF: Str := [10]
  const CRLF: Str := [13, 10]

  /** The code units of a literal whose characters are all in the basic multilingual plane. */
  function Units(s: string): (r: Str)
    ensures |r| == |s|
  {
    seq(|s|, i requires 0 <= i < |s| => (s[i] as int) % 0x1_0000)
  }

  datatype Json =
    | Null
    | Bool(b: bool)
    | Num(n: int)
    | Text(s: Str)
    | Arr(items: seq<Json>)
    | Obj(members: seq<Member>)

  datatype Member = Member(key: Str, value: Json)

  // ---- Printing

  predicate IsHigh(c: Code) { 0xD800 <= c <= 0xDBFF }
  predicate IsLow(c: Code) { 0xDC00 <= c <= 0xDFFF }

  function HexDigit(d: nat): Code
    requires d < 16
  {
    if d < 10 then 48 + d else 87 + d
  }

  function QuoteUnit(c: Code): Str {
    if c == 8 then [92, 98]
    else if c == 9 then [92, 116]
    else if c == 10 then [92, 110]
    else if c == 12 then [92, 102]
    else if c == 13 then [92, 114]
    else if c == 34 || c == 92 then [92, c]
    else if c < 32 || IsHigh(c) || IsLow(c) then
      [92, 117, HexDigit(c / 4096), HexDigit(c / 256 % 16), HexDigit(c / 16 % 16), HexDigit(c % 16)]
    else [c]
  }

  /** The inside of a quoted string: a surrogate pair is kept, a lone surrogate is escaped. */
  function QuoteBody(s: Str): Str {
    if s == [] then []
    else if |s| > 1 && IsHigh(s[0]) && IsLow(s[1]) then [s[0], s[1]] + QuoteBody(s[2..])
    else QuoteUnit(s[0]) + QuoteBody(s[1..])
  }

  function Quote(s: Str): Str {
    [34] + QuoteBody(s) + [34]
  }

  function Digits(n: nat): (r: Str)
    ensures r != [] && forall i :: 0 <= i < |r| ==> IsDigit(r[i])
    ensures r[0] == 48 <==> n == 0
  {
    if n < 10 then [48 + n] else Digits(n / 10) + [48 + n % 10]
  }

  predicate IsDigit(c: Code) { 48 <= c <= 57 }

  function Pad(k: nat): (r: Str)
    ensures |r| == k
  {
    seq(k, i => 32)
  }

  function Print(v: Json, nl: Str, indent: nat): Str {
    match v
    case Null => [110, 117, 108, 108]
    case Bool(b) => if b then [116, 114, 117, 101] else [102, 97, 108, 115, 101]
    case Num(n) => if n < 0 then [45] + Digits(-n) else Digits(n)
    case Text(s) => Quote(s)
    case Arr(items) =>
      if items == [] then [91, 93]
      else [91] + (nl + Pad(indent + 2)) + PrintItems(items, nl, indent + 2) + (nl + Pad(indent) + [93])
    case Obj(members) =>
      if members == [] then [123, 125]
      else [123] + (nl + Pad(indent + 2)) + PrintMembers(members, nl, indent + 2) + (nl + Pad(indent) + [125])
  }

  function PrintItems(items: seq<Json>, nl: Str, indent: nat): Str
    requires items != []
  {
    if |items| == 1 then Print(items[0], nl, indent)
    else Print(items[0], nl, indent) + [44] + (nl + Pad(indent)) + PrintItems(items[1..], nl, indent)
  }

  function PrintMember(m: Member, nl: Str, indent: nat): Str {
    Quote(m.key) + [58, 32] + Print(m.value, nl, indent)
  }

  function PrintMembers(members: seq<Member>, nl: Str, indent: nat): Str
    requires members != []
  {
    if |members| == 1 then PrintMember(members[0], nl, indent)
    else PrintMember(members[0], nl, indent) + [44] + (nl + Pad(indent)) + PrintMembers(members[1..], nl, indent)
  }

  // ---- Parsing

  datatype Parsed<T> = Parsed(value: T, rest: Str)

  predicate IsSpace(c: Code) {
    c == 32 || c == 9 || c == 10 || c == 13
  }

  function SkipSpace(s: Str): (r: Str)
    ensures |r| <= |s| && (r != [] ==> !IsSpace(r[0]))
  {
    if s != [] && IsSpace(s[0]) then SkipSpace(s[1..]) else s
  }

  function HexValue(c: Code): Option<nat> {
    if 48 <= c <= 57 then Some(c - 48)
    else if 97 <= c <= 102 then Some(c - 87)
    else if 65 <= c <= 70 then Some(c - 55)
    else None
  }

  function HexValueOf4(s: Str): Option<Code>
    requires |s| >= 4
  {
    var a, b, c, d := HexValue(s[0]), HexValue(s[1]), HexValue(s[2]), HexValue(s[3]);
    if a.Some? && b.Some? && c.Some? && d.Some? && a.value < 16 && b.value < 16 && c.value < 16 && d.value < 16
    then Some(a.value * 4096 + b.value * 256 + c.value * 16 + d.value)
    else None
  }

  /** The unit that a two-character escape stands for. */
  function Escaped(c: Code): Option<Code> {
    match c
    case 34 => Some(34)
    case 92 => Some(92)
    case 47 => Some(47)
    case 98 => Some(8)
    case 102 => Some(12)
    case 110 => Some(10)
    case 114 => Some(13)
    case 116 => Some(9)
    case _ => None
  }

  function Prepend(c: Code, p: Option<Parsed<Str>>): Option<Parsed<Str>> {
    match p
    case None => None
    case Some(Parsed(v, rest)) => Some(Parsed([c] + v, rest))
  }

  /** The inside of a string, up to and including the closing quote. */
  function ParseBody(s: Str): (r: Option<Parsed<Str>>)
    ensures r.Some? ==> |r.value.rest| < |s|
  {
    if s == [] || s[0] < 32 then None
    else if s[0] == 34 then Some(Parsed([], s[1..]))
    else if s[0] == 92 then
      if |s| < 2 then None
      else if s[1] == 117 then
        if |s| < 6 then None
        else match HexValueOf4(s[2..6])
          case None => None
          case Some(c) => Prepend(c, ParseBody(s[6..]))
      else match Escaped(s[1])
        case None => None
        case Some(c) => Prepend(c, ParseBody(s[2..]))
    else Prepend(s[0], ParseBody(s[1..]))
  }

  function ParseDigits(s: Str, n: nat): (r: Parsed<nat>)
    ensures |r.rest| <= |s|
    decreases s
  {
    if s != [] && IsDigit(s[0]) then ParseDigits(s[1..], n * 10 + (s[0] - 48)) else Parsed(n, s)
  }

  /** A run of digits without a superfluous leading zero. */
  function ParseNat(s: Str): (r: Option<Parsed<nat>>)
    ensures r.Some? ==> |r.value.rest| < |s|
  {
    if s == [] || !IsDigit(s[0]) then None
    else if s[0] == 48 then Some(Parsed(0, s[1..]))
    else Some(ParseDigits(s[1..], s[0] - 48))
  }

  function ParseNumber(s: Str): (r: Option<Parsed<Json>>)
    ensures r.Some? ==> |r.value.rest| < |s|
  {
    if s != [] && s[0] == 45 then
      match ParseNat(s[1..])
      case None => None
      case Some(Parsed(n, rest)) => Some(Parsed(Num(0 - n as int), rest))
    else
      match ParseNat(s)
      case None => None
      case Some(Parsed(n, rest)) => Some(Parsed(Num(n), rest))
  }

  function ParseWord(word: Str, v: Json, s: Str): (r: Option<Parsed<Json>>)
    requires word != []
    ensures r.Some? ==> |r.value.rest| < |s|
  {
    if |word| <= |s| && s[..|word|] == word then Some(Parsed(v, s[|word|..])) else None
  }

  /** A value after optional white space. */
  function ParseValue(s: Str): (r: Option<Parsed<Json>>)
    ensures r.Some? ==> |r.value.rest| < |s|
    decreases |s|, 1
  {
    ParseToken(SkipSpace(s))
  }

  /** A value at the start of the text. */
  function ParseToken(t: Str): (r: Option<Parsed<Json>>)
    ensures r.Some? ==> |r.value.rest| < |t|
    decreases |t|, 0
  {
    if t == [] then None
    else if t[0] == 34 then
      match ParseBody(t[1..])
      case None => None
      case Some(Parsed(v, rest)) => Some(Parsed(Text(v), rest))
    else if t[0] == 91 then
      var u := SkipSpace(t[1..]);
      if u != [] && u[0] == 93 then Some(Parsed(Arr([]), u[1..]))
      else match ParseItems(t[1..])
        case None => None
        case Some(Parsed(items, rest)) => Some(Parsed(Arr(items), rest))
    else if t[0] == 123 then
      var u := SkipSpace(t[1..]);
      if u != [] && u[0] == 125 then Some(Parsed(Obj([]), u[1..]))
      else match ParseMembers(t[1..])
        case None => None
        case Some(Parsed(members, rest)) => Some(Parsed(Obj(members), rest))
    else if t[0] == 110 then ParseWord([110, 117, 108, 108], Null, t)
    else if t[0] == 116 then ParseWord([116, 114, 117, 101], Bool(true), t)
    else if t[0] == 102 then ParseWord([102, 97, 108, 115, 101], Bool(false), t)
    else ParseNumber(t)
  }

  /** One or more values separated by commas, and the closing bracket. */
  function ParseItems(s: Str): (r: Option<Parsed<seq<Json>>>)
    ensures r.Some? ==> |r.value.rest| < |s|
    decreases |s|, 2
  {
    match ParseValue(s)
    case None => None
    case Some(Parsed(v, rest)) =>
      var t := SkipSpace(rest);
      if t == [] then None
      else if t[0] == 93 then Some(Parsed([v], t[1..]))
      else if t[0] == 44 then
        match ParseItems(t[1..])
        case None => None
        case Some(Parsed(more, rest')) => Some(Parsed([v] + more, rest'))
      else None
  }

  function ParseMember(s: Str): (r: Option<Parsed<Member>>)
    ensures r.Some? ==> |r.value.rest| < |s|
    decreases |s|, 2
  {
    var t := SkipSpace(s);
    if t == [] || t[0] != 34 then None
    else match ParseBody(t[1..])
      case None => None
      case Some(Parsed(key, rest)) =>
        var u := SkipSpace(rest);
        if u == [] || u[0] != 58 then None
        else match ParseValue(u[1..])
          case None => None
          case Some(Parsed(v, rest')) => Some(Parsed(Member(key, v), rest'))
  }

  /** One or more members separated by commas, and the closing brace. */
  function ParseMembers(s: Str): (r: Option<Parsed<seq<Member>>>)
    ensures r.Some? ==> |r.value.rest| < |s|
    decreases |s|, 3
  {
    match ParseMember(s)
    case None => None
    case Some(Parsed(m, rest)) =>
      var t := SkipSpace(rest);
      if t == [] then None
      else if t[0] == 125 then Some(Parsed([m], t[1..]))
      else if t[0] == 44 then
        match ParseMembers(t[1..])
        case None => None
        case Some(Parsed(more, rest')) => Some(Parsed([m] + more, rest'))
      else None
  }

  /** A whole text: one value with nothing but white space around it. */
  function Parse(s: Str): Option<Json> {
    match ParseValue(s)
    case None => None
    case Some(Parsed(v, rest)) => if SkipSpace(rest) == [] then Some(v) else None
  }

  // ---- The parser inverts the printer

  lemma HexDigitRead(d: nat)
    requires d < 16
    ensures HexValue(HexDigit(d)) == Some(d)
  {
  }

  lemma HexSplit(c: Code)
    ensures c == c / 4096 * 4096 + c / 256 % 16 * 256 + c / 16 % 16 * 16 + c % 16
  {
    var n: int := c;
    assert n / 16 == n / 256 * 16 + n / 16 % 16;
    assert n / 256 == n / 4096 * 16 + n / 256 % 16;
  }

  lemma HexRoundTrip(c: Code)
    ensures HexValueOf4([HexDigit(c / 4096), HexDigit(c / 256 % 16), HexDigit(c / 16 % 16), HexDigit(c % 16)])
            == Some(c)
  {
    HexDigitRead(c / 4096);
    HexDigitRead(c / 256 % 16);
    HexDigitRead(c / 16 % 16);
    HexDigitRead(c % 16);
    HexSplit(c);
    hide HexDigit, HexValue;
  }

  lemma UnitRoundTrip(c: Code, tail: Str)
    ensures ParseBody(QuoteUnit(c) + tail) == Prepend(c, ParseBody(tail))
  {
    var q := QuoteUnit(c);
    var all := q + tail;
    assert all[|q|..] == tail;
    if |q| == 6 {
      HexRoundTrip(c);
      assert all[2..6] == [HexDigit(c / 4096), HexDigit(c / 256 % 16), HexDigit(c / 16 % 16), HexDigit(c % 16)];
      assert all[0] == 92 && all[1] == 117;
    } else if |q| == 2 {
      assert all[0] == 92 && Escaped(all[1]) == Some(c);
    } else {
      assert all[0] == c;
    }
  }

  lemma PlainRead(c: Code, tail: Str)
    requires c >= 32 && c != 34 && c != 92
    ensures ParseBody([c] + tail) == Prepend(c, ParseBody(tail))
  {
    assert ([c] + tail)[1..] == tail;
  }

  lemma CloseRead(tail: Str)
    ensures ParseBody([34] + tail) == Some(Parsed([], tail))
  {
    assert ([34] + tail)[1..] == tail;
  }

  lemma PrependSeq(c: Code, s: Str, p: Option<Parsed<Str>>, tail: Str)
    requires p == Some(Parsed(s, tail))
    ensures Prepend(c, p) == Some(Parsed([c] + s, tail))
  {
  }

  lemma BodyText(s: Str, close: Str)
    requires s != []
    ensures if |s| > 1 && IsHigh(s[0]) && IsLow(s[1])
            then QuoteBody(s) + close == [s[0]] + ([s[1]] + (QuoteBody(s[2..]) + close))
            else QuoteBody(s) + close == QuoteUnit(s[0]) + (QuoteBody(s[1..]) + close)
  {
    hide QuoteUnit;
    if |s| > 1 && IsHigh(s[0]) && IsLow(s[1]) {
      assert QuoteBody(s) == [s[0], s[1]] + QuoteBody(s[2..]);
      PairText(s[0], s[1], QuoteBody(s[2..]), close);
    } else {
      assert QuoteBody(s) == QuoteUnit(s[0]) + QuoteBody(s[1..]);
      Assoc(QuoteUnit(s[0]), QuoteBody(s[1..]), close);
    }
  }

  lemma PairText(x: Code, y: Code, b: Str, c: Str)
    ensures [x, y] + b + c == [x] + ([y] + (b + c))
  {
  }

  /** Every string of code units, paired or not, survives quoting and parsing. */
  lemma {:induction false} BodyRoundTrip(s: Str, tail: Str)
    ensures ParseBody(QuoteBody(s) + ([34] + tail)) == Some(Parsed(s, tail))
  {
    hide QuoteUnit, ParseBody, Prepend;
    var close := [34] + tail;
    if s == [] {
      CloseRead(tail);
      assert QuoteBody(s) + close == close;
    } else {
      BodyText(s, close);
      if |s| > 1 && IsHigh(s[0]) && IsLow(s[1]) {
        BodyRoundTrip(s[2..], tail);
        hide QuoteBody;
        var more := QuoteBody(s[2..]) + close;
        PlainRead(s[1], more);
        PlainRead(s[0], [s[1]] + more);
        PrependSeq(s[1], s[2..], ParseBody(more), tail);
        PrependSeq(s[0], [s[1]] + s[2..], ParseBody([s[1]] + more), tail);
        assert s == [s[0]] + ([s[1]] + s[2..]);
      } else {
        BodyRoundTrip(s[1..], tail);
        hide QuoteBody;
        var more := QuoteBody(s[1..]) + close;
        UnitRoundTrip(s[0], more);
        PrependSeq(s[0], s[1..], ParseBody(more), tail);
        assert s == [s[0]] + s[1..];
      }
    }
  }

  lemma DigitRead(d: nat, n: nat, tail: Str)
    requires d < 10
    ensures ParseDigits([48 + d] + tail, n) == ParseDigits(tail, n * 10 + d)
  {
    assert ([48 + d] + tail)[1..] == tail;
  }

  lemma {:induction false} DigitsContinue(n: nat, tail: Str)
    ensures ParseDigits(Digits(n) + tail, 0) == ParseDigits(tail, n)
  {
    hide ParseDigits;
    if n < 10 {
      DigitRead(n, 0, tail);
    } else {
      var last: Str := [48 + n % 10];
      DigitsContinue(n / 10, last + tail);
      DigitRead(n % 10, n / 10, tail);
      assert Digits(n) + tail == Digits(n / 10) + (last + tail);
    }
  }

  /** What may follow a value without changing how it is read. */
  predicate Delimits(tail: Str) {
    tail == [] || !IsDigit(tail[0])
  }

  lemma NatRoundTrip(n: nat, tail: Str)
    requires Delimits(tail)
    ensures ParseNat(Digits(n) + tail) == Some(Parsed(n, tail))
  {
    var all := Digits(n) + tail;
    DigitsContinue(n, tail);
    assert ParseDigits(all, 0) == Parsed(n, tail);
    assert all[0] == Digits(n)[0];
    if n == 0 {
      assert Digits(0) == [48];
      assert all[1..] == tail;
    }
  }

  lemma TokenStarts(v: Json, nl: Str, indent: nat)
    ensures var p := Print(v, nl, indent); p != [] && !IsSpace(p[0]) && p[0] != 93 && p[0] != 125
  {
    match v
    case Num(n) => assert IsDigit(Digits(if n < 0 then -n else n)[0]);
    case _ =>
  }

  predicate IsNewline(nl: Str) {
    nl == LF || nl == CRLF
  }

  /** White space before a text that starts with none is skipped. */
  lemma {:induction false} SkipGap(gap: Str, s: Str)
    requires forall i :: 0 <= i < |gap| ==> IsSpace(gap[i])
    requires s != [] && !IsSpace(s[0])
    ensures SkipSpace(gap + s) == s
  {
    if gap == [] {
      assert gap + s == s;
    } else {
      assert (gap + s)[1..] == gap[1..] + s;
      SkipGap(gap[1..], s);
    }
  }

  lemma GapIsSpace(nl: Str, indent: nat)
    requires IsNewline(nl)
    ensures forall i :: 0 <= i < |nl + Pad(indent)| ==> IsSpace((nl + Pad(indent))[i])
  {
  }

  lemma ValueAfterGap(gap: Str, v: Json, nl: Str, indent: nat, tail: Str)
    requires forall i :: 0 <= i < |gap| ==> IsSpace(gap[i])
    ensures ParseValue(gap + (Print(v, nl, indent) + tail)) == ParseToken(Print(v, nl, indent) + tail)
  {
    TokenStarts(v, nl, indent);
    SkipGap(gap, Print(v, nl, indent) + tail);
  }

  lemma WordToken(word: Str, v: Json, tail: Str)
    requires word != []
    ensures ParseWord(word, v, word + tail) == Some(Parsed(v, tail))
  {
    assert (word + tail)[..|word|] == word && (word + tail)[|word|..] == tail;
  }

  lemma NumToken(n: int, tail: Str)
    requires Delimits(tail)
    ensures ParseNumber((if n < 0 then [45] + Digits(-n) else Digits(n)) + tail) == Some(Parsed(Num(n), tail))
  {
    hide Digits, ParseNat;
    if n < 0 {
      NatRoundTrip(-n, tail);
      assert ([45] + Digits(-n) + tail)[1..] == Digits(-n) + tail;
    } else {
      NatRoundTrip(n, tail);
      assert IsDigit(Digits(n)[0]);
    }
  }

  lemma TextToken(s: Str, tail: Str)
    ensures ParseToken(Quote(s) + tail) == Some(Parsed(Text(s), tail))
  {
    hide QuoteBody, ParseBody;
    BodyRoundTrip(s, tail);
    assert (Quote(s) + tail)[1..] == QuoteBody(s) + ([34] + tail);
  }

  lemma ArrToken(u: Str, items: seq<Json>, tail: Str)
    requires ParseItems(u) == Some(Parsed(items, tail)) && SkipSpace(u) != [] && SkipSpace(u)[0] != 93
    ensures ParseToken([91] + u) == Some(Parsed(Arr(items), tail))
  {
    assert ([91] + u)[1..] == u;
  }

  lemma ObjToken(u: Str, members: seq<Member>, tail: Str)
    requires ParseMembers(u) == Some(Parsed(members, tail)) && SkipSpace(u) != [] && SkipSpace(u)[0] != 125
    ensures ParseToken([123] + u) == Some(Parsed(Obj(members), tail))
  {
    assert ([123] + u)[1..] == u;
  }

  lemma EmptyTokens(tail: Str)
    ensures ParseToken([91, 93] + tail) == Some(Parsed(Arr([]), tail))
    ensures ParseToken([123, 125] + tail) == Some(Parsed(Obj([]), tail))
  {
    assert ([91, 93] + tail)[1..] == [93] + tail && ([93] + tail)[1..] == tail;
    assert ([123, 125] + tail)[1..] == [125] + tail && ([125] + tail)[1..] == tail;
  }

  lemma BracketText(open: Code, gap: Str, inner: Str, close: Str, shut: Code, tail: Str)
    ensures [open] + gap + inner + (close + [shut]) + tail == [open] + (gap + (inner + (close + ([shut] + tail))))
  {
  }

  lemma {:induction false} TokenRoundTrip(v: Json, nl: Str, indent: nat, tail: Str)
    requires IsNewline(nl) && Delimits(tail)
    ensures ParseToken(Print(v, nl, indent) + tail) == Some(Parsed(v, tail))
    decreases v, 1
  {
    hide Digits, PrintItems, PrintMembers, ParseItems, ParseMembers, ParseBody, QuoteBody, ParseNat;
    match v
    case Null => WordToken([110, 117, 108, 108], v, tail);
    case Bool(b) => WordToken(if b then [116, 114, 117, 101] else [102, 97, 108, 115, 101], v, tail);
    case Num(n) =>
      NumToken(n, tail);
      NumStarts(n);
    case Text(s) => TextToken(s, tail);
    case Arr(items) =>
      if items == [] {
        EmptyTokens(tail);
      } else {
        ArrRoundTrip(v, items, nl, indent, tail);
      }
    case Obj(members) =>
      if members == [] {
        EmptyTokens(tail);
      } else {
        ObjRoundTrip(v, members, nl, indent, tail);
      }
  }

  lemma {:induction false} ArrRoundTrip(v: Json, items: seq<Json>, nl: Str, indent: nat, tail: Str)
    requires IsNewline(nl) && v == Arr(items) && items != []
    ensures ParseToken(Print(v, nl, indent) + tail) == Some(Parsed(v, tail))
    decreases v, 0
  {
    hide ParseToken, ParseItems, PrintItems;
    var gap, close := nl + Pad(indent + 2), nl + Pad(indent);
    var inner := PrintItems(items, nl, indent + 2) + (close + ([93] + tail));
    ItemsRoundTrip(items, nl, indent + 2, gap, close, tail);
    BracketText(91, gap, PrintItems(items, nl, indent + 2), close, 93, tail);
    ItemsStart(items, nl, indent + 2);
    GapIsSpace(nl, indent + 2);
    SkipGap(gap, inner);
    ArrToken(gap + inner, items, tail);
  }

  lemma {:induction false} ObjRoundTrip(v: Json, members: seq<Member>, nl: Str, indent: nat, tail: Str)
    requires IsNewline(nl) && v == Obj(members) && members != []
    ensures ParseToken(Print(v, nl, indent) + tail) == Some(Parsed(v, tail))
    decreases v, 0
  {
    hide ParseToken, ParseMembers, PrintMembers;
    var gap, close := nl + Pad(indent + 2), nl + Pad(indent);
    var inner := PrintMembers(members, nl, indent + 2) + (close + ([125] + tail));
    MembersRoundTrip(members, nl, indent + 2, gap, close, tail);
    BracketText(123, gap, PrintMembers(members, nl, indent + 2), close, 125, tail);
    MembersStart(members, nl, indent + 2);
    GapIsSpace(nl, indent + 2);
    SkipGap(gap, inner);
    ObjToken(gap + inner, members, tail);
  }

  lemma NumStarts(n: int)
    ensures var p := if n < 0 then [45] + Digits(-n) else Digits(n); p[0] == 45 || IsDigit(p[0])
  {
    assert n >= 0 ==> IsDigit(Digits(n)[0]);
  }

  lemma MembersStart(members: seq<Member>, nl: Str, indent: nat)
    requires members != []
    ensures var p := PrintMembers(members, nl, indent); p != [] && p[0] == 34
  {
  }

  lemma ItemsStart(items: seq<Json>, nl: Str, indent: nat)
    requires items != []
    ensures var p := PrintItems(items, nl, indent); p != [] && !IsSpace(p[0]) && p[0] != 93
  {
    TokenStarts(items[0], nl, indent);
  }

  lemma ItemsLast(s: Str, v: Json, close: Str, tail: Str)
    requires ParseValue(s) == Some(Parsed(v, close + ([93] + tail)))
    requires forall i :: 0 <= i < |close| ==> IsSpace(close[i])
    ensures ParseItems(s) == Some(Parsed([v], tail))
  {
    hide ParseValue;
    SkipGap(close, [93] + tail);
    assert ([93] + tail)[1..] == tail;
  }

  lemma ItemsNext(s: Str, v: Json, more: Str, items: seq<Json>, tail: Str)
    requires ParseValue(s) == Some(Parsed(v, [44] + more)) && ParseItems(more) == Some(Parsed(items, tail))
    ensures ParseItems(s) == Some(Parsed([v] + items, tail))
  {
    hide ParseValue;
    assert SkipSpace([44] + more) == [44] + more && ([44] + more)[1..] == more;
  }

  lemma ListText(first: Str, comma: Str, gap: Str, others: Str, end: Str)
    ensures first + comma + gap + others + end == first + (comma + (gap + (others + end)))
  {
  }

  lemma {:induction false} ItemsRoundTrip(items: seq<Json>, nl: Str, indent: nat, gap: Str, close: Str, tail: Str)
    requires IsNewline(nl) && items != []
    requires forall i :: 0 <= i < |gap| ==> IsSpace(gap[i])
    requires close != [] && forall i :: 0 <= i < |close| ==> IsSpace(close[i])
    ensures ParseItems(gap + (PrintItems(items, nl, indent) + (close + ([93] + tail)))) == Some(Parsed(items, tail))
    decreases items, 0
  {
    hide Print, ParseToken, ParseItems, ParseValue;
    var end := close + ([93] + tail);
    var v := items[0];
    if |items| == 1 {
      TokenRoundTrip(v, nl, indent, end);
      ValueAfterGap(gap, v, nl, indent, end);
      ItemsLast(gap + (Print(v, nl, indent) + end), v, close, tail);
      assert items == [v];
    } else {
      var others := PrintItems(items[1..], nl, indent);
      var more := nl + Pad(indent) + (others + end);
      GapIsSpace(nl, indent);
      ItemsRoundTrip(items[1..], nl, indent, nl + Pad(indent), close, tail);
      TokenRoundTrip(v, nl, indent, [44] + more);
      ValueAfterGap(gap, v, nl, indent, [44] + more);
      ListText(Print(v, nl, indent), [44], nl + Pad(indent), others, end);
      assert PrintItems(items, nl, indent) + end == Print(v, nl, indent) + ([44] + more);
      ItemsNext(gap + (Print(v, nl, indent) + ([44] + more)), v, more, items[1..], tail);
      assert items == [v] + items[1..];
    }
  }

  lemma MemberText(m: Member, nl: Str, indent: nat, tail: Str)
    ensures PrintMember(m, nl, indent) + tail
         == [34] + (QuoteBody(m.key) + ([34] + ([58] + ([32] + (Print(m.value, nl, indent) + tail)))))
  {
    hide Print, QuoteBody;
    var k, p := QuoteBody(m.key), Print(m.value, nl, indent);
    assert [34] + k + [34] + [58, 32] + p + tail == [34] + (k + ([34] + ([58] + ([32] + (p + tail)))));
  }

  lemma MemberParts(s: Str, key: Str, body: Str, value: Str, v: Json, tail: Str)
    requires SkipSpace(s) == [34] + body && ParseBody(body) == Some(Parsed(key, [58] + value))
    requires ParseValue(value) == Some(Parsed(v, tail))
    ensures ParseMember(s) == Some(Parsed(Member(key, v), tail))
  {
    hide ParseValue, ParseBody;
    assert ([34] + body)[1..] == body;
    assert SkipSpace([58] + value) == [58] + value && ([58] + value)[1..] == value;
  }

  lemma {:induction false} MemberRoundTrip(m: Member, nl: Str, indent: nat, gap: Str, tail: Str)
    requires IsNewline(nl) && Delimits(tail)
    requires forall i :: 0 <= i < |gap| ==> IsSpace(gap[i])
    ensures ParseMember(gap + (PrintMember(m, nl, indent) + tail)) == Some(Parsed(m, tail))
    decreases m, 2
  {
    hide Print, ParseToken, ParseValue, ParseMember, PrintMember, ParseBody, QuoteBody;
    var value := [32] + (Print(m.value, nl, indent) + tail);
    var body := QuoteBody(m.key) + ([34] + ([58] + value));
    MemberText(m, nl, indent, tail);
    SkipGap(gap, [34] + body);
    BodyRoundTrip(m.key, [58] + value);
    TokenRoundTrip(m.value, nl, indent, tail);
    ValueAfterGap([32], m.value, nl, indent, tail);
    MemberParts(gap + ([34] + body), m.key, body, value, m.value, tail);
  }

  lemma MembersLast(s: Str, m: Member, close: Str, tail: Str)
    requires ParseMember(s) == Some(Parsed(m, close + ([125] + tail)))
    requires forall i :: 0 <= i < |close| ==> IsSpace(close[i])
    ensures ParseMembers(s) == Some(Parsed([m], tail))
  {
    hide ParseMember;
    SkipGap(close, [125] + tail);
    assert ([125] + tail)[1..] == tail;
  }

  lemma MembersNext(s: Str, m: Member, more: Str, members: seq<Member>, tail: Str)
    requires ParseMember(s) == Some(Parsed(m, [44] + more)) && ParseMembers(more) == Some(Parsed(members, tail))
    ensures ParseMembers(s) == Some(Parsed([m] + members, tail))
  {
    hide ParseMember;
    assert SkipSpace([44] + more) == [44] + more && ([44] + more)[1..] == more;
  }

  lemma {:induction false} MembersRoundTrip(members: seq<Member>, nl: Str, indent: nat, gap: Str, close: Str, tail: Str)
    requires IsNewline(nl) && members != []
    requires forall i :: 0 <= i < |gap| ==> IsSpace(gap[i])
    requires close != [] && forall i :: 0 <= i < |close| ==> IsSpace(close[i])
    ensures ParseMembers(gap + (PrintMembers(members, nl, indent) + (close + ([125] + tail))))
            == Some(Parsed(members, tail))
    decreases members, 0
  {
    hide PrintMember, ParseMember, ParseMembers;
    var end := close + ([125] + tail);
    var m := members[0];
    if |members| == 1 {
      MemberRoundTrip(m, nl, indent, gap, end);
      MembersLast(gap + (PrintMember(m, nl, indent) + end), m, close, tail);
      assert members == [m];
    } else {
      var others := PrintMembers(members[1..], nl, indent);
      var more := nl + Pad(indent) + (others + end);
      GapIsSpace(nl, indent);
      MembersRoundTrip(members[1..], nl, indent, nl + Pad(indent), close, tail);
      MemberRoundTrip(m, nl, indent, gap, [44] + more);
      ListText(PrintMember(m, nl, indent), [44], nl + Pad(indent), others, end);
      assert PrintMembers(members, nl, indent) + end == PrintMember(m, nl, indent) + ([44] + more);
      MembersNext(gap + (PrintMember(m, nl, indent) + ([44] + more)), m, more, members[1..], tail);
      assert members == [m] + members[1..];
    }
  }

  /** Parsing a pretty-printed value, in either newline form, gives the value back. */
  lemma RoundTrip(v: Json, nl: Str)
    requires IsNewline(nl)
    ensures Parse(Print(v, nl, 0)) == Some(v)
  {
    TokenRoundTrip(v, nl, 0, []);
    ValueAfterGap([], v, nl, 0, []);
    assert Print(v, nl, 0) + [] == Print(v, nl, 0);
    assert [] + (Print(v, nl, 0) + []) == Print(v, nl, 0);
  }

  // ---- Newlines in printed text

  /** Every line feed is followed by something that does not start another newline. */
  predicate Flowing(t: Str) {
    forall i :: 0 <= i < |t| && t[i] == 10 ==> i + 1 < |t| && t[i + 1] != 10 && t[i + 1] != 13
  }

  predicate Clean(t: Str) {
    forall i :: 0 <= i < |t| ==> t[i] >= 32
  }

  function ToCrlf(s: Str): Str {
    if s == [] then [] else (if s[0] == 10 then CRLF else [s[0]]) + ToCrlf(s[1..])
  }

  lemma FlowingConcat(a: Str, b: Str)
    requires Flowing(a) && Flowing(b)
    ensures Flowing(a + b)
  {
  }

  lemma FlowingGap(nl: Str, t: Str)
    requires IsNewline(nl) && Clean(t) && t != []
    ensures Flowing(nl + t)
  {
  }

  lemma {:induction false} CrlfConcat(a: Str, b: Str)
    ensures ToCrlf(a + b) == ToCrlf(a) + ToCrlf(b)
  {
    if a == [] {
      assert a + b == b;
    } else {
      assert (a + b)[1..] == a[1..] + b;
      CrlfConcat(a[1..], b);
    }
  }

  lemma {:induction false} CrlfClean(s: Str)
    requires Clean(s)
    ensures ToCrlf(s) == s
  {
    if s != [] {
      CrlfClean(s[1..]);
    }
  }

  lemma {:induction false} QuoteClean(s: Str)
    ensures Clean(QuoteBody(s))
  {
    if s == [] {
    } else if |s| > 1 && IsHigh(s[0]) && IsLow(s[1]) {
      QuoteClean(s[2..]);
    } else {
      QuoteClean(s[1..]);
      assert Clean(QuoteUnit(s[0]));
    }
  }

  /** Values without nested lines. */
  lemma ScalarClean(v: Json, nl: Str, indent: nat)
    requires !(v.Arr? && v.items != []) && !(v.Obj? && v.members != [])
    ensures Clean(Print(v, nl, indent))
  {
    match v
    case Text(s) => QuoteClean(s);
    case Num(n) =>
      var d := Digits(if n < 0 then -n else n);
      assert forall i :: 0 <= i < |d| ==> IsDigit(d[i]);
    case _ =>
  }

  /** Printed text never contains a blank line, nor a newline at its end. */
  lemma {:induction false} PrintFlowing(v: Json, nl: Str, indent: nat)
    requires IsNewline(nl)
    ensures Flowing(Print(v, nl, indent))
    decreases v
  {
    if v.Arr? && v.items != [] {
      ItemsFlowing(v.items, nl, indent + 2);
      BracketsFlowing(nl, 91, PrintItems(v.items, nl, indent + 2), 93, indent);
      hide PrintItems, Flowing;
    } else if v.Obj? && v.members != [] {
      MembersFlowing(v.members, nl, indent + 2);
      BracketsFlowing(nl, 123, PrintMembers(v.members, nl, indent + 2), 125, indent);
      hide PrintMembers, Flowing;
    } else {
      ScalarClean(v, nl, indent);
    }
  }

  lemma BracketsFlowing(nl: Str, open: Code, body: Str, close: Code, indent: nat)
    requires IsNewline(nl) && open >= 32 && close >= 32 && Flowing(body)
    ensures Flowing([open] + (nl + Pad(indent + 2)) + body + (nl + Pad(indent) + [close]))
  {
    var gap, end := nl + Pad(indent + 2), nl + Pad(indent) + [close];
    FlowingGap(nl, Pad(indent + 2));
    assert end == nl + (Pad(indent) + [close]);
    FlowingGap(nl, Pad(indent) + [close]);
    FlowingConcat([open] + gap, body);
    FlowingConcat([open] + gap + body, end);
  }

  lemma {:induction false} ItemsFlowing(items: seq<Json>, nl: Str, indent: nat)
    requires IsNewline(nl) && items != [] && indent > 0
    ensures Flowing(PrintItems(items, nl, indent))
    decreases items
  {
    PrintFlowing(items[0], nl, indent);
    if |items| > 1 {
      ItemsFlowing(items[1..], nl, indent);
      hide Print;
      FlowingGap(nl, Pad(indent));
      FlowingConcat(Print(items[0], nl, indent), [44] + (nl + Pad(indent)));
      assert Print(items[0], nl, indent) + [44] + (nl + Pad(indent))
             == Print(items[0], nl, indent) + ([44] + (nl + Pad(indent)));
      FlowingConcat(Print(items[0], nl, indent) + [44] + (nl + Pad(indent)), PrintItems(items[1..], nl, indent));
    }
  }

  lemma {:induction false} MembersFlowing(members: seq<Member>, nl: Str, indent: nat)
    requires IsNewline(nl) && members != [] && indent > 0
    ensures Flowing(PrintMembers(members, nl, indent))
    decreases members
  {
    var m := members[0];
    PrintFlowing(m.value, nl, indent);
    QuoteClean(m.key);
    hide Print, QuoteBody;
    FlowingConcat(Quote(m.key) + [58, 32], Print(m.value, nl, indent));
    if |members| > 1 {
      MembersFlowing(members[1..], nl, indent);
      hide PrintMember;
      var first, gap := PrintMember(m, nl, indent), nl + Pad(indent);
      FlowingGap(nl, Pad(indent));
      FlowingConcat(first, [44] + gap);
      assert first + [44] + gap == first + ([44] + gap);
      FlowingConcat(first + [44] + gap, PrintMembers(members[1..], nl, indent));
    }
  }

  lemma CrlfGap(t: Str)
    requires Clean(t)
    ensures ToCrlf(LF + t) == CRLF + t
  {
    CrlfClean(t);
    assert (LF + t)[1..] == t;
  }

  lemma CrlfConcat4(a: Str, b: Str, c: Str, d: Str)
    ensures ToCrlf(a + b + c + d) == ToCrlf(a) + ToCrlf(b) + ToCrlf(c) + ToCrlf(d)
  {
    CrlfConcat(a + b + c, d);
    CrlfConcat(a + b, c);
    CrlfConcat(a, b);
  }

  /** Converting the newlines of printed text is printing with the other newline. */
  lemma {:induction false} PrintCrlf(v: Json, indent: nat)
    ensures ToCrlf(Print(v, LF, indent)) == Print(v, CRLF, indent)
    decreases v
  {
    if v.Arr? && v.items != [] {
      ItemsCrlf(v.items, indent + 2);
      BracketsCrlf(91, PrintItems(v.items, LF, indent + 2), 93, indent);
      hide PrintItems, ToCrlf;
    } else if v.Obj? && v.members != [] {
      MembersCrlf(v.members, indent + 2);
      BracketsCrlf(123, PrintMembers(v.members, LF, indent + 2), 125, indent);
      hide PrintMembers, ToCrlf;
    } else {
      ScalarClean(v, LF, indent);
      CrlfClean(Print(v, LF, indent));
    }
  }

  lemma BracketsCrlf(open: Code, body: Str, close: Code, indent: nat)
    requires open >= 32 && close >= 32
    ensures ToCrlf([open] + (LF + Pad(indent + 2)) + body + (LF + Pad(indent) + [close]))
         == [open] + (CRLF + Pad(indent + 2)) + ToCrlf(body) + (CRLF + Pad(indent) + [close])
  {
    hide ToCrlf;
    CrlfConcat4([open], LF + Pad(indent + 2), body, LF + Pad(indent) + [close]);
    CrlfClean([open]);
    CrlfGap(Pad(indent + 2));
    CrlfGap(Pad(indent) + [close]);
    assert LF + Pad(indent) + [close] == LF + (Pad(indent) + [close]);
    assert CRLF + Pad(indent) + [close] == CRLF + (Pad(indent) + [close]);
  }

  lemma {:induction false} ItemsCrlf(items: seq<Json>, indent: nat)
    requires items != []
    ensures ToCrlf(PrintItems(items, LF, indent)) == PrintItems(items, CRLF, indent)
    decreases items
  {
    PrintCrlf(items[0], indent);
    if |items| > 1 {
      ItemsCrlf(items[1..], indent);
      hide Print, ToCrlf;
      CrlfConcat4(Print(items[0], LF, indent), [44], LF + Pad(indent), PrintItems(items[1..], LF, indent));
      CrlfClean([44]);
      CrlfGap(Pad(indent));
    }
  }

  lemma {:induction false} MembersCrlf(members: seq<Member>, indent: nat)
    requires members != []
    ensures ToCrlf(PrintMembers(members, LF, indent)) == PrintMembers(members, CRLF, indent)
    decreases members
  {
    var m := members[0];
    PrintCrlf(m.value, indent);
    QuoteClean(m.key);
    hide Print, ToCrlf, QuoteBody;
    CrlfConcat(Quote(m.key) + [58, 32], Print(m.value, LF, indent));
    CrlfClean(Quote(m.key) + [58, 32]);
    if |members| > 1 {
      MembersCrlf(members[1..], indent);
      CrlfConcat4(PrintMember(m, LF, indent), [44], LF + Pad(indent), PrintMembers(members[1..], LF, indent));
      CrlfClean([44]);
      CrlfGap(Pad(indent));
    }
  }

  // ---- The characters of quoted text

  /** A hexadecimal digit in lower case. */
  predicate ShowsDigit(code: Code, d: int) {
    (0 <= d <= 9 && code == '0' as int + d) || (10 <= d <= 15 && code == 'a' as int + (d - 10))
  }

  /**
   * How a code unit is quoted: five control characters, the quote and the backslash with a letter or themselves, other
   * control characters and lone surrogates with four hexadecimal digits, and everything else as it is.
   */
  lemma QuoteMeans(c: Code)
    ensures var q, slash := QuoteUnit(c), '\\' as int;
            && (c == 0x08 ==> q == [slash, 'b' as int]) && (c == 0x09 ==> q == [slash, 't' as int])
            && (c == 0x0A ==> q == [slash, 'n' as int]) && (c == 0x0C ==> q == [slash, 'f' as int])
            && (c == 0x0D ==> q == [slash, 'r' as int])
            && (c == '"' as int ==> q == [slash, '"' as int]) && (c == slash ==> q == [slash, slash])
    ensures (c < 0x20 && c !in {0x08, 0x09, 0x0A, 0x0C, 0x0D}) || 0xD800 <= c <= 0xDFFF ==>
              var q := QuoteUnit(c);
              && |q| == 6 && q[0] == '\\' as int && q[1] == 'u' as int
              && exists a, b, d, e :: ShowsDigit(q[2], a) && ShowsDigit(q[3], b) && ShowsDigit(q[4], d)
                                      && ShowsDigit(q[5], e) && c == ((a * 16 + b) * 16 + d) * 16 + e
    ensures 0x20 <= c && c != '"' as int && c != '\\' as int && !(0xD800 <= c <= 0xDFFF) ==> QuoteUnit(c) == [c]
  {
    if (c < 0x20 && c !in {0x08, 0x09, 0x0A, 0x0C, 0x0D}) || 0xD800 <= c <= 0xDFFF {
      var q, a, b, d, e := QuoteUnit(c), c / 4096, c / 256 % 16, c / 16 % 16, c % 16;
      assert q == [92, 117, HexDigit(a), HexDigit(b), HexDigit(d), HexDigit(e)];
      assert ShowsDigit(q[2], a) && ShowsDigit(q[3], b) && ShowsDigit(q[4], d) && ShowsDigit(q[5], e);
      HexSum(c);
    }
  }

  lemma HexSum(c: Code)
    ensures c == ((c / 4096 * 16 + c / 256 % 16) * 16 + c / 16 % 16) * 16 + c % 16
  {
    assert c / 16 / 16 == c / 256 && c / 256 / 16 == c / 4096;
  }

  // ---- What is refused

  /** White space between tokens, hexadecimal digits, and the letters after a backslash. */
  lemma CharactersRead(c: Code)
    ensures IsSpace(c) <==> c in {' ' as int, '\t' as int, '\n' as int, '\r' as int}
    ensures HexValue(c) == if '0' as int <= c <= '9' as int then Some(c - '0' as int)
                           else if 'a' as int <= c <= 'f' as int then Some(c - 'a' as int + 10)
                           else if 'A' as int <= c <= 'F' as int then Some(c - 'A' as int + 10) else None
    ensures Escaped(c) == if c in {'"' as int, '\\' as int, '/' as int} then Some(c)
                          else if c == 'b' as int then Some(8) else if c == 't' as int then Some(9)
                          else if c == 'n' as int then Some(10) else if c == 'f' as int then Some(12)
                          else if c == 'r' as int then Some(13) else None
  {
  }

  /** A number has no further digits after a leading zero. */
  lemma ZeroStandsAlone(s: Str)
    ensures ParseNat([48] + s) == Some(Parsed(0, s))
  {
    assert ([48] + s)[1..] == s;
  }

  lemma {:induction false} SkipsSpaceOnly(s: Str)
    ensures var r := SkipSpace(s);
            |r| <= |s| && r == s[|s| - |r|..] && forall i :: 0 <= i < |s| - |r| ==> IsSpace(s[i])
  {
    if s != [] && IsSpace(s[0]) {
      SkipsSpaceOnly(s[1..]);
      hide IsSpace;
      var r := SkipSpace(s[1..]);
      assert s == [s[0]] + s[1..];
    }
  }

  /** A text is read only if nothing but white space follows the value. */
  lemma WholeTextRead(s: Str)
    ensures Parse(s) == match ParseValue(s)
                        case None => None
                        case Some(Parsed(v, rest)) =>
                          if forall i :: 0 <= i < |rest| ==> IsSpace(rest[i]) then Some(v) else None
  {
    if ParseValue(s).Some? {
      var rest := ParseValue(s).value.rest;
      SkipsSpaceOnly(rest);
      var r := SkipSpace(rest);
      if r != [] {
        assert rest[|rest| - |r|] == r[0];
      }
    }
    hide ParseValue, SkipSpace, IsSpace;
  }

  /** Between values stands a comma, or the list is closed; anything else is refused. */
  lemma SeparatorsNeeded(s: Str)
    ensures ParseValue(s).Some? ==>
              var t := SkipSpace(ParseValue(s).value.rest);
              t == [] || (t[0] != ',' as int && t[0] != ']' as int) ==> ParseItems(s) == None
    ensures ParseMember(s).Some? ==>
              var t := SkipSpace(ParseMember(s).value.rest);
              t == [] || (t[0] != ',' as int && t[0] != '}' as int) ==> ParseMembers(s) == None
  {
    hide SkipSpace, ParseValue, ParseMember;
  }

  /** A string holds no control character; a word stands as it is; a member has a quoted key and a colon. */
  lemma TokensNeeded(s: Str, word: Str, v: Json)
    ensures s != [] && s[0] < 32 ==> ParseBody(s) == None
    ensures word != [] ==> ParseWord(word, v, s) == if word <= s then Some(Parsed(v, s[|word|..])) else None
    ensures ParseMember(s).Some? ==>
              var t := SkipSpace(s);
              && t != [] && t[0] == '"' as int && ParseBody(t[1..]).Some?
              && var u := SkipSpace(ParseBody(t[1..]).value.rest);
                 u != [] && u[0] == ':' as int
  {
    hide SkipSpace, ParseValue;
  }
}
