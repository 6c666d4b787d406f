/**
 * The JSON printer and reader. Objects are kept as their members in key order, the way an
 * ordered map iterates; strings hold the raw characters between the quotes, escapes
 * included; a real number is known by the literal that was read.
 */
module Json {
  import opened Wrappers

  datatype Value =
    | Array(items: seq<Value>)
    | Bool(b: bool)
    | Integer(n: int)
    | Nil
    | Object(members: seq<Member>)
    | Real(literal: string)
    | String(text: string)

  datatype Member = Member(key: string, value: Value)

  /** Reading yields a value and leaves the rest of the stream, or throws. */
  datatype Parse<T> = Ok(value: T, rest: string) | Fail

  const MIN_INT := -0x8000_0000_0000_0000
  const MAX_INT := 0x7fff_ffff_ffff_ffff

  // ---- characters ----

  predicate IsSpace(c: char) {
    c == ' ' || '\t' <= c <= '\r'
  }

  predicate IsDigit(c: char) {
    '0' <= c <= '9'
  }

  function SkipSpace(s: string): (r: string)
    ensures |r| <= |s| && (r != [] ==> !IsSpace(r[0]))
  {
    if s != [] && IsSpace(s[0]) then SkipSpace(s[1..]) else s
  }

  /** The next character that is not white space. */
  function NonSpace(s: string): (r: Parse<char>)
    ensures r.Ok? ==> |r.rest| < |s|
  {
    var t := SkipSpace(s);
    if t == [] then Fail else Ok(t[0], t[1..])
  }

  // ---- string tokens ----

  /** Up to the closing quote; a backslash keeps itself and the next character. */
  function ReadToken(s: string): (r: Parse<string>)
    ensures r.Ok? ==> |r.rest| < |s|
  {
    if s == [] then Fail
    else if s[0] == '"' then Ok([], s[1..])
    else if s[0] == '\\' then
      if |s| < 2 then Fail else Before(s[..2], ReadToken(s[2..]))
    else Before(s[..1], ReadToken(s[1..]))
  }

  function Before(front: string, r: Parse<string>): Parse<string> {
    if r.Ok? then Ok(front + r.value, r.rest) else Fail
  }

  /** No quote without a backslash before it, no backslash without a character after it. */
  predicate IsToken(t: string) {
    t == [] || (t[0] != '"' && if t[0] == '\\' then |t| >= 2 && IsToken(t[2..]) else IsToken(t[1..]))
  }

  lemma {:induction false} TokenIsRead(t: string, rest: string)
    requires IsToken(t)
    ensures ReadToken(t + "\"" + rest) == Ok(t, rest)
  {
    var s := t + "\"" + rest;
    if t == [] {
      assert s[1..] == rest;
    } else if t[0] == '\\' {
      TokenIsRead(t[2..], rest);
      assert s[2..] == t[2..] + "\"" + rest;
      assert s[..2] + t[2..] == t;
    } else {
      TokenIsRead(t[1..], rest);
      assert s[1..] == t[1..] + "\"" + rest;
      assert s[..1] + t[1..] == t;
    }
  }

  lemma {:induction false} ReadIsToken(s: string)
    requires ReadToken(s).Ok?
    ensures IsToken(ReadToken(s).value)
  {
    if s[0] == '"' {
    } else if s[0] == '\\' {
      ReadIsToken(s[2..]);
      assert (s[..2] + ReadToken(s[2..]).value)[2..] == ReadToken(s[2..]).value;
    } else {
      ReadIsToken(s[1..]);
      assert (s[..1] + ReadToken(s[1..]).value)[1..] == ReadToken(s[1..]).value;
    }
  }

  // ---- integers ----

  function PrintNat(n: nat): (s: string)
    ensures s != [] && forall i :: 0 <= i < |s| ==> IsDigit(s[i])
    ensures s[0] == '0' ==> n == 0 && |s| == 1
  {
    if n < 10 then ['0' + n as char] else PrintNat(n / 10) + ['0' + (n % 10) as char]
  }

  function PrintInt(n: int): string {
    if n < 0 then "-" + PrintNat(-n) else PrintNat(n)
  }

  function NatOf(s: string): nat
    requires forall i :: 0 <= i < |s| ==> IsDigit(s[i])
  {
    if s == [] then 0
    else
      assert IsDigit(s[|s| - 1]);
      NatOf(s[..|s| - 1]) * 10 + (s[|s| - 1] as int - '0' as int)
  }

  lemma {:induction false} NatOfPrint(n: nat)
    ensures NatOf(PrintNat(n)) == n
  {
    var s := PrintNat(n);
    if n >= 10 {
      NatOfPrint(n / 10);
      assert s[..|s| - 1] == PrintNat(n / 10);
    } else {
      assert s[..|s| - 1] == [];
    }
  }

  /** Extraction from a string stream: the sign alone gives zero, values out of range the nearest bound. */
  function IntOf(text: string): (n: int)
    requires text != [] && (IsDigit(text[0]) || text[0] == '-')
    requires forall i :: 1 <= i < |text| ==> IsDigit(text[i])
    ensures MIN_INT <= n <= MAX_INT
  {
    var n: int := if text[0] == '-' then 0 - NatOf(text[1..]) else NatOf(text);
    if n < MIN_INT then MIN_INT else if n > MAX_INT then MAX_INT else n
  }

  // ---- numbers ----

  predicate InNumber(c: char) {
    IsDigit(c) || c == '.'
  }

  /** The digits and dots at the front. */
  function Run(s: string): (r: string)
    ensures r <= s && (forall i :: 0 <= i < |r| ==> InNumber(r[i]))
    ensures |r| < |s| ==> !InNumber(s[|r|])
  {
    if s != [] && InNumber(s[0]) then [s[0]] + Run(s[1..]) else []
  }

  function DigitRun(s: string): (r: string)
    ensures r <= s && (forall i :: 0 <= i < |r| ==> IsDigit(r[i]))
    ensures |r| < |s| ==> !IsDigit(s[|r|])
  {
    if s != [] && IsDigit(s[0]) then [s[0]] + DigitRun(s[1..]) else []
  }

  function Dots(s: string): (n: nat)
    ensures n == 0 <==> '.' !in s
  {
    if s == [] then 0 else (if s[0] == '.' then 1 else 0) + Dots(s[1..])
  }

  /** An exponent is read only after a dot: the letter e, a sign or none, then at least one digit. */
  function ReadExponent(text: string, s: string): (r: Parse<Value>)
    ensures r.Ok? ==> |r.rest| <= |s| && r.value.Real?
  {
    if s == [] || s[0] != 'e' then Ok(Real(text), s)
    else
      var k := if |s| > 1 && (s[1] == '+' || s[1] == '-') then 2 else 1;
      var digits := DigitRun(s[k..]);
      if digits == [] then Fail else Ok(Real(text + s[..k] + digits), s[k + |digits|..])
  }

  function ParseNumber(c: char, s: string): (r: Parse<Value>)
    requires c == '-' || IsDigit(c)
    ensures r.Ok? ==> |r.rest| <= |s|
  {
    var text := [c] + Run(s);
    var rest := s[|Run(s)|..];
    if Dots(Run(s)) > 1 then Fail
    else if Dots(Run(s)) == 1 then ReadExponent(text, rest)
    else if |text| > 1 && (text[0] == '0' || (text[0] == '-' && text[1] == '0')) then Fail
    else
      assert forall i :: 1 <= i < |text| ==> text[i] == Run(s)[i - 1];
      Ok(Integer(IntOf(text)), rest)
  }

  // ---- objects ----

  /** Strings in the order of their characters. */
  predicate Less(a: string, b: string) {
    b != [] && (a == [] || a[0] < b[0] || (a[0] == b[0] && Less(a[1..], b[1..])))
  }

  predicate Ascending(m: seq<Member>) {
    forall i, j :: 0 <= i < j < |m| ==> Less(m[i].key, m[j].key)
  }

  /** Assignment to a key of an ordered map. */
  function Put(m: seq<Member>, k: string, v: Value): seq<Member> {
    if m == [] then [Member(k, v)]
    else if m[0].key == k then [Member(k, v)] + m[1..]
    else if Less(k, m[0].key) then [Member(k, v)] + m
    else [m[0]] + Put(m[1..], k, v)
  }

  // ---- the reader ----

  function Literal(s: string, word: string, v: Value): (r: Parse<Value>)
    ensures r.Ok? ==> |r.rest| <= |s|
  {
    if word <= s then Ok(v, s[|word|..]) else Fail
  }

  function Read(s: string): (r: Parse<Value>)
    ensures r.Ok? ==> |r.rest| < |s|
    decreases |s|, 1
  {
    match NonSpace(s)
    case Fail => Fail
    case Ok(c, r) =>
      if c == '[' then ParseArray(r)
      else if c == 't' then Literal(r, "rue", Bool(true))
      else if c == 'f' then Literal(r, "alse", Bool(false))
      else if c == '-' || IsDigit(c) then ParseNumber(c, r)
      else if c == 'n' then Literal(r, "ull", Nil)
      else if c == '{' then ParseObject(r)
      else if c == '"' then
        var t := ReadToken(r);
        if t.Ok? then Ok(String(t.value), t.rest) else Fail
      else Fail
  }

  function ParseArray(s: string): (r: Parse<Value>)
    ensures r.Ok? ==> |r.rest| < |s|
    decreases |s|, 3
  {
    match NonSpace(s)
    case Fail => Fail
    case Ok(c, r) => if c == ']' then Ok(Array([]), r) else ReadItems(SkipSpace(s), [])
  }

  function ReadItems(s: string, items: seq<Value>): (r: Parse<Value>)
    ensures r.Ok? ==> |r.rest| < |s|
    decreases |s|, 2
  {
    match Read(s)
    case Fail => Fail
    case Ok(v, r) =>
      match NonSpace(r)
      case Fail => Fail
      case Ok(c, r2) =>
        if c == ']' then Ok(Array(items + [v]), r2)
        else if c == ',' then ReadItems(r2, items + [v])
        else Fail
  }

  function ParseObject(s: string): (r: Parse<Value>)
    ensures r.Ok? ==> |r.rest| < |s|
    decreases |s|, 3
  {
    match NonSpace(s)
    case Fail => Fail
    case Ok(c, r) => if c == '}' then Ok(Object([]), r) else ReadMembers(c, r, [])
  }

  /** Members from the character c on, which must open a key; a repeated key replaces the earlier value. */
  function ReadMembers(c: char, s: string, members: seq<Member>): (r: Parse<Value>)
    ensures r.Ok? ==> |r.rest| < |s|
    decreases |s|, 2
  {
    var name := if c == '"' then ReadToken(s) else Fail;
    if name.Fail? then Fail
    else
      var colon := NonSpace(name.rest);
      if colon.Fail? || colon.value != ':' then Fail
      else
        match Read(colon.rest)
        case Fail => Fail
        case Ok(v, r) =>
          var next := NonSpace(r);
          if next.Fail? then Fail
          else if next.value == '}' then Ok(Object(Put(members, name.value, v)), next.rest)
          else
            var key := if next.value == ',' then NonSpace(next.rest) else Fail;
            if key.Fail? then Fail else ReadMembers(key.value, key.rest, Put(members, name.value, v))
  }

  // ---- the printer ----

  /** Values without real numbers, whose printing rounds. */
  predicate Exact(v: Value) {
    match v
    case Array(items) => forall i :: 0 <= i < |items| ==> Exact(items[i])
    case Object(members) => forall i :: 0 <= i < |members| ==> Exact(members[i].value)
    case Real(_) => false
    case _ => true
  }

  function Print(v: Value): string
    requires Exact(v)
  {
    match v
    case Array(items) => "[" + PrintItems(items) + "]"
    case Bool(b) => if b then "true" else "false"
    case Integer(n) => PrintInt(n)
    case Nil => "null"
    case Object(members) => "{" + PrintMembers(members) + "}"
    case String(text) => "\"" + text + "\""
  }

  function PrintItems(items: seq<Value>): string
    requires forall i :: 0 <= i < |items| ==> Exact(items[i])
  {
    if items == [] then []
    else if |items| == 1 then Print(items[0])
    else Print(items[0]) + "," + PrintItems(items[1..])
  }

  function PrintMember(m: Member): string
    requires Exact(m.value)
  {
    "\"" + m.key + "\":" + Print(m.value)
  }

  function PrintMembers(members: seq<Member>): string
    requires forall i :: 0 <= i < |members| ==> Exact(members[i].value)
  {
    if members == [] then []
    else if |members| == 1 then PrintMember(members[0])
    else PrintMember(members[0]) + "," + PrintMembers(members[1..])
  }

  // ---- what the reader can produce ----

  /** Keys and strings are tokens, keys ascend, integers fit in 64 bits. */
  predicate WellFormed(v: Value) {
    match v
    case Array(items) => forall i :: 0 <= i < |items| ==> WellFormed(items[i])
    case Integer(n) => MIN_INT <= n <= MAX_INT
    case Object(members) =>
      Ascending(members) && forall i :: 0 <= i < |members| ==> IsToken(members[i].key) && WellFormed(members[i].value)
    case String(text) => IsToken(text)
    case _ => true
  }

  lemma {:induction false} LessTotal(a: string, b: string)
    requires a != b && !Less(a, b)
    ensures Less(b, a)
  {
    if b != [] && a[0] == b[0] {
      assert a == [a[0]] + a[1..] && b == [b[0]] + b[1..];
      LessTotal(a[1..], b[1..]);
    }
  }

  lemma {:induction false} LessTransitive(a: string, b: string, c: string)
    requires Less(a, b) && Less(b, c)
    ensures Less(a, c)
  {
    if a != [] && a[0] == b[0] == c[0] {
      LessTransitive(a[1..], b[1..], c[1..]);
    }
  }

  /** Assignment sets its key and leaves every other key as it was. */
  lemma {:induction false} PutSets(m: seq<Member>, k: string, v: Value)
    requires Ascending(m)
    ensures forall e :: e in Put(m, k, v) <==> e == Member(k, v) || (e in m && e.key != k)
  {
    hide Less;
    if m != [] {
      assert m == [m[0]] + m[1..];
      if m[0].key == k {
        LessIrreflexiveAll(m);
      } else if Less(k, m[0].key) {
        BelowAll(m, k);
      } else {
        PutSets(m[1..], k, v);
      }
    }
  }

  /** A key below the first is below all. */
  lemma {:induction false} BelowAll(m: seq<Member>, k: string)
    requires Ascending(m) && m != [] && Less(k, m[0].key)
    ensures forall i :: 0 <= i < |m| ==> Less(k, m[i].key) && m[i].key != k
  {
    hide Less;
    forall i | 0 <= i < |m|
      ensures Less(k, m[i].key) && m[i].key != k
    {
      if i > 0 { LessTransitive(k, m[0].key, m[i].key); }
      LessIrreflexive(k);
    }
  }

  /** Assignment keeps the order. */
  lemma {:induction false} PutKeepsOrder(m: seq<Member>, k: string, v: Value)
    requires Ascending(m)
    ensures Ascending(Put(m, k, v))
  {
    hide Less;
    if m == [] {
    } else if m[0].key == k {
    } else if Less(k, m[0].key) {
      BelowAll(m, k);
    } else {
      PutKeepsOrder(m[1..], k, v);
      PutSets(m[1..], k, v);
      LessTotal(k, m[0].key);
      var rest := Put(m[1..], k, v);
      forall j | 0 <= j < |rest|
        ensures Less(m[0].key, rest[j].key)
      {
        assert rest[j] in rest;
        if rest[j] != Member(k, v) {
          var i :| 0 <= i < |m[1..]| && m[1..][i] == rest[j];
          assert m[i + 1] == rest[j];
        }
      }
    }
  }

  lemma {:induction false} LessIrreflexive(a: string)
    ensures !Less(a, a)
  {
    if a != [] { LessIrreflexive(a[1..]); }
  }

  lemma {:induction false} LessIrreflexiveAll(m: seq<Member>)
    requires Ascending(m)
    ensures forall i, j :: 0 <= i < j < |m| ==> m[i].key != m[j].key
  {
    forall i, j | 0 <= i < j < |m|
      ensures m[i].key != m[j].key
    {
      LessIrreflexive(m[i].key);
    }
  }

  ghost predicate AllWellFormed(items: seq<Value>) {
    forall i :: 0 <= i < |items| ==> WellFormed(items[i])
  }

  ghost predicate MembersWellFormed(members: seq<Member>) {
    Ascending(members) && forall i :: 0 <= i < |members| ==> IsToken(members[i].key) && WellFormed(members[i].value)
  }

  lemma {:induction false} PutWellFormed(members: seq<Member>, k: string, v: Value)
    requires MembersWellFormed(members) && IsToken(k) && WellFormed(v)
    ensures MembersWellFormed(Put(members, k, v))
  {
    PutKeepsOrder(members, k, v);
    PutSets(members, k, v);
    var m := Put(members, k, v);
    forall i | 0 <= i < |m|
      ensures IsToken(m[i].key) && WellFormed(m[i].value)
    {
      assert m[i] in m;
    }
  }

  /** Whatever the text, a value that is read is well formed. */
  lemma {:induction false} ReadGivesWellFormed(s: string)
    requires Read(s).Ok?
    ensures WellFormed(Read(s).value)
    decreases |s|, 1
  {
    hide ReadItems, ReadMembers, ReadToken;
    var c, r := NonSpace(s).value, NonSpace(s).rest;
    if c == '[' && NonSpace(r).value != ']' {
      ItemsGiveWellFormed(SkipSpace(r), []);
    } else if c == '{' && NonSpace(r).value != '}' {
      MembersGiveWellFormed(NonSpace(r).value, NonSpace(r).rest, []);
    } else if c == '"' {
      ReadIsToken(r);
    }
  }

  lemma {:induction false} ItemsGiveWellFormed(s: string, items: seq<Value>)
    requires ReadItems(s, items).Ok? && AllWellFormed(items)
    ensures WellFormed(ReadItems(s, items).value)
    decreases |s|, 2
  {
    hide Read;
    ReadGivesWellFormed(s);
    var v, r := Read(s).value, Read(s).rest;
    if NonSpace(r).value == ',' {
      ItemsGiveWellFormed(NonSpace(r).rest, items + [v]);
    }
  }

  lemma {:induction false} MembersGiveWellFormed(c: char, s: string, members: seq<Member>)
    requires ReadMembers(c, s, members).Ok? && MembersWellFormed(members)
    ensures WellFormed(ReadMembers(c, s, members).value)
    decreases |s|, 2
  {
    hide Read, ReadToken, Put;
    ReadIsToken(s);
    var name := ReadToken(s).value;
    var after := NonSpace(ReadToken(s).rest).rest;
    ReadGivesWellFormed(after);
    var v, next := Read(after).value, NonSpace(Read(after).rest);
    PutWellFormed(members, name, v);
    if next.value == ',' {
      MembersGiveWellFormed(NonSpace(next.rest).value, NonSpace(next.rest).rest, Put(members, name, v));
    }
  }

  // ---- printing and reading back ----

  /** The text after an integer must not look like more of it. */
  predicate Ends(v: Value, rest: string) {
    v.Integer? ==> rest == [] || !InNumber(rest[0])
  }

  lemma {:induction false} RunOf(run: string, tail: string)
    requires (forall i :: 0 <= i < |run| ==> InNumber(run[i])) && (tail == [] || !InNumber(tail[0]))
    ensures Run(run + tail) == run
  {
    if run == [] {
      assert run + tail == tail;
    } else {
      assert (run + tail)[1..] == run[1..] + tail;
      RunOf(run[1..], tail);
    }
  }

  lemma {:induction false} DigitsHaveNoDot(s: string)
    requires forall i :: 0 <= i < |s| ==> IsDigit(s[i])
    ensures Dots(s) == 0
  {
  }

  /** A sign or a digit, then digits; no needless zero in front. */
  predicate IsIntText(text: string) {
    && text != [] && (text[0] == '-' || IsDigit(text[0]))
    && (forall i :: 1 <= i < |text| ==> IsDigit(text[i]))
    && (|text| > 1 ==> text[0] != '0' && (text[0] == '-' ==> text[1] != '0'))
  }

  lemma {:induction false} PrintIntShape(n: int)
    ensures IsIntText(PrintInt(n))
  {
  }

  lemma {:induction false} IntOfPrint(n: int)
    requires MIN_INT <= n <= MAX_INT && IsIntText(PrintInt(n))
    ensures IntOf(PrintInt(n)) == n
  {
    hide PrintNat, NatOf;
    if n < 0 {
      NatOfPrint(-n);
      assert PrintInt(n)[1..] == PrintNat(-n);
    } else {
      NatOfPrint(n);
      assert IsDigit(PrintNat(n)[0]);
    }
  }

  lemma {:induction false} IntTextIsRead(text: string, rest: string)
    requires IsIntText(text) && (rest == [] || !InNumber(rest[0]))
    ensures ParseNumber(text[0], text[1..] + rest) == Ok(Integer(IntOf(text)), rest)
  {
    hide Run, Dots, IntOf;
    RunOf(text[1..], rest);
    DigitsHaveNoDot(text[1..]);
    assert [text[0]] + text[1..] == text;
    assert (text[1..] + rest)[|text[1..]|..] == rest;
  }

  lemma {:induction false} NonSpaceHere(s: string)
    requires s != [] && !IsSpace(s[0])
    ensures NonSpace(s) == Ok(s[0], s[1..]) && SkipSpace(s) == s
  {
  }

  lemma {:induction false} FirstCharacter(v: Value)
    requires Exact(v)
    ensures Print(v) != [] && !IsSpace(Print(v)[0]) && Print(v)[0] != ']'
  {
  }

  /** The first character decides what is read. */
  lemma {:induction false} ReadOpens(c: char, r: string)
    ensures c == '[' ==> Read([c] + r) == ParseArray(r)
    ensures c == '{' ==> Read([c] + r) == ParseObject(r)
    ensures c == '-' || IsDigit(c) ==> Read([c] + r) == ParseNumber(c, r)
    ensures c == '"' ==> Read([c] + r) == if ReadToken(r).Ok? then Ok(String(ReadToken(r).value), ReadToken(r).rest) else Fail
  {
    hide ParseArray, ParseObject, ParseNumber, ReadToken, Literal;
    var s := [c] + r;
    assert s[1..] == r;
    if !IsSpace(c) { NonSpaceHere(s); }
  }

  lemma {:induction false} WordIsRead(v: Value, rest: string)
    requires v.Bool? || v.Nil?
    ensures Read(Print(v) + rest) == Ok(v, rest)
  {
    hide ParseArray, ParseObject, ParseNumber, ReadToken;
    var s := Print(v) + rest;
    NonSpaceHere(s);
    var word := Print(v)[1..];
    assert s[1..] == word + rest;
    assert (word + rest)[|word|..] == rest;
  }

  lemma {:induction false} IntegerIsRead(n: int, rest: string)
    requires WellFormed(Integer(n)) && (rest == [] || !InNumber(rest[0]))
    ensures Read(PrintInt(n) + rest) == Ok(Integer(n), rest)
  {
    hide Read, PrintInt, ParseNumber, IntOf;
    var text := PrintInt(n);
    PrintIntShape(n);
    IntOfPrint(n);
    IntTextIsRead(text, rest);
    ReadOpens(text[0], text[1..] + rest);
    assert text + rest == [text[0]] + (text[1..] + rest);
  }

  lemma {:induction false} StringIsRead(text: string, rest: string)
    requires IsToken(text)
    ensures Read("\"" + text + "\"" + rest) == Ok(String(text), rest)
  {
    hide Read, ReadToken;
    TokenIsRead(text, rest);
    ReadOpens('"', text + "\"" + rest);
    assert "\"" + text + "\"" + rest == ['"'] + (text + "\"" + rest);
  }

  /** Printing a well-formed value and reading it gives the value back and consumes exactly its text. */
  lemma {:induction false} ReadInvertsPrint(v: Value, rest: string)
    requires Exact(v) && WellFormed(v) && Ends(v, rest)
    ensures Read(Print(v) + rest) == Ok(v, rest)
    decreases v, 1
  {
    hide Read, ParseArray, ParseObject, ReadItems, ReadMembers, ReadToken, ParseNumber, PrintItems, PrintMembers, PrintInt;
    match v
    case Array(items) =>
      var inner := PrintItems(items) + ("]" + rest);
      ReadOpens('[', inner);
      assert Print(v) + rest == ['['] + inner;
      if items == [] { EmptyIsRead(rest); } else { ItemsAreRead(items, [], rest); }
      assert [] + items == items;
    case Bool(_) => WordIsRead(v, rest);
    case Nil => WordIsRead(v, rest);
    case Integer(n) => IntegerIsRead(n, rest);
    case String(text) => StringIsRead(text, rest);
    case Object(members) =>
      var inner := PrintMembers(members) + ("}" + rest);
      ReadOpens('{', inner);
      assert Print(v) + rest == ['{'] + inner;
      assert [] + members == members;
      if members == [] { EmptyIsRead(rest); } else { MembersAreRead(members, [], rest); }
  }

  lemma {:induction false} EmptyIsRead(rest: string)
    ensures PrintItems([]) + ("]" + rest) == "]" + rest && ParseArray("]" + rest) == Ok(Array([]), rest)
    ensures PrintMembers([]) + ("}" + rest) == "}" + rest && ParseObject("}" + rest) == Ok(Object([]), rest)
  {
    NonSpaceHere("]" + rest);
    NonSpaceHere("}" + rest);
    assert ("]" + rest)[1..] == rest && ("}" + rest)[1..] == rest;
  }

  /** What follows the first item in the printed text of an array. */
  function AfterItem(items: seq<Value>, rest: string): string
    requires items != [] && forall i :: 0 <= i < |items| ==> Exact(items[i])
  {
    if |items| == 1 then "]" + rest else "," + (PrintItems(items[1..]) + ("]" + rest))
  }

  lemma {:induction false} ItemsSplit(items: seq<Value>, rest: string)
    requires items != [] && forall i :: 0 <= i < |items| ==> Exact(items[i])
    ensures PrintItems(items) + ("]" + rest) == Print(items[0]) + AfterItem(items, rest)
  {
  }

  lemma {:induction false} ItemsAreRead(items: seq<Value>, done: seq<Value>, rest: string)
    requires items != [] && forall i :: 0 <= i < |items| ==> Exact(items[i]) && WellFormed(items[i])
    ensures ReadItems(PrintItems(items) + ("]" + rest), done) == Ok(Array(done + items), rest)
    ensures ParseArray(PrintItems(items) + ("]" + rest)) == ReadItems(PrintItems(items) + ("]" + rest), [])
    decreases items, 0
  {
    hide Read, Print, PrintItems;
    var s, tail := PrintItems(items) + ("]" + rest), AfterItem(items, rest);
    ItemsSplit(items, rest);
    FirstCharacter(items[0]);
    assert s[0] == Print(items[0])[0];
    NonSpaceHere(s);
    ReadInvertsPrint(items[0], tail);
    NonSpaceHere(tail);
    if |items| == 1 {
      assert tail[1..] == rest;
      assert done + [items[0]] == done + items;
    } else {
      assert tail[1..] == PrintItems(items[1..]) + ("]" + rest);
      ItemsAreRead(items[1..], done + [items[0]], rest);
      assert done + [items[0]] + items[1..] == done + items;
    }
  }

  function AfterMember(members: seq<Member>, rest: string): string
    requires members != [] && forall i :: 0 <= i < |members| ==> Exact(members[i].value)
  {
    if |members| == 1 then "}" + rest else "," + (PrintMembers(members[1..]) + ("}" + rest))
  }

  lemma {:induction false} MembersSplit(members: seq<Member>, rest: string)
    requires members != [] && forall i :: 0 <= i < |members| ==> Exact(members[i].value)
    ensures PrintMembers(members) + ("}" + rest) ==
            "\"" + (members[0].key + "\"" + (":" + (Print(members[0].value) + AfterMember(members, rest))))
  {
    hide Print;
    if |members| > 1 { Regroup(PrintMember(members[0]), PrintMembers(members[1..]), "}" + rest); }
    MemberText(members[0].key, Print(members[0].value), AfterMember(members, rest));
  }

  lemma {:induction false} Regroup(first: string, more: string, end: string)
    ensures (first + "," + more) + end == first + ("," + (more + end))
  {
  }

  lemma {:induction false} MemberText(k: string, p: string, tail: string)
    ensures "\"" + k + "\":" + p + tail == "\"" + (k + "\"" + (":" + (p + tail)))
  {
    assert "\":" == "\"" + ":";
    assert "\"" + k + "\":" == "\"" + (k + "\"" + ":");
    assert "\"" + (k + "\"" + ":") + p == "\"" + (k + "\"" + (":" + p));
  }

  lemma {:induction false} PutAtEnd(m: seq<Member>, k: string, v: Value)
    requires forall i :: 0 <= i < |m| ==> Less(m[i].key, k)
    ensures Put(m, k, v) == m + [Member(k, v)]
  {
    if m != [] {
      LessAsymmetric(m[0].key, k);
      PutAtEnd(m[1..], k, v);
      assert m == [m[0]] + m[1..];
    }
  }

  lemma {:induction false} LessAsymmetric(a: string, b: string)
    requires Less(a, b)
    ensures !Less(b, a) && a != b
  {
    LessIrreflexive(a);
    if Less(b, a) { LessTransitive(a, b, a); }
  }

  lemma {:induction false} MembersAreRead(members: seq<Member>, done: seq<Member>, rest: string)
    requires members != [] && Ascending(done + members)
    requires forall i :: 0 <= i < |members| ==>
      IsToken(members[i].key) && Exact(members[i].value) && WellFormed(members[i].value)
    ensures var s := PrintMembers(members) + ("}" + rest);
      && s != [] && s[0] == '"' && ReadMembers('"', s[1..], done) == Ok(Object(done + members), rest)
      && ParseObject(s) == ReadMembers('"', s[1..], [])
    decreases members, 0
  {
    hide Read, ReadToken, Print, PrintMembers, Put;
    var s, tail := PrintMembers(members) + ("}" + rest), AfterMember(members, rest);
    var k, v := members[0].key, members[0].value;
    MembersSplit(members, rest);
    NonSpaceHere(s);
    var afterKey := ":" + (Print(v) + tail);
    assert s[1..] == k + "\"" + afterKey;
    TokenIsRead(k, afterKey);
    NonSpaceHere(afterKey);
    assert afterKey[1..] == Print(v) + tail;
    ReadInvertsPrint(v, tail);
    NonSpaceHere(tail);
    forall i | 0 <= i < |done|
      ensures Less(done[i].key, k)
    {
      assert (done + members)[i] == done[i] && (done + members)[|done|] == members[0];
    }
    PutAtEnd(done, k, v);
    assert done + [Member(k, v)] + members[1..] == done + members;
    if |members| == 1 {
      assert tail[1..] == rest;
      assert done + [Member(k, v)] == done + members;
    } else {
      var next := PrintMembers(members[1..]) + ("}" + rest);
      assert tail[1..] == next;
      MembersAreRead(members[1..], done + [Member(k, v)], rest);
      NonSpaceHere(next);
    }
  }

  /** A value comes back from its own text exactly when it is well formed. */
  lemma {:induction false} RoundTripIff(v: Value)
    requires Exact(v)
    ensures Read(Print(v)) == Ok(v, []) <==> WellFormed(v)
  {
    hide Read, Print;
    assert Print(v) + [] == Print(v);
    if WellFormed(v) {
      ReadInvertsPrint(v, []);
    }
    if Read(Print(v)) == Ok(v, []) {
      ReadGivesWellFormed(Print(v));
    }
  }

  /** Strings are printed as they are: one that holds a bare quote does not come back. */
  lemma {:induction false} BareQuoteIsLost()
    ensures Read(Print(String("\""))) != Ok(String("\""), [])
  {
    RoundTripIff(String("\""));
  }

  /** Reading is idempotent through printing: what was read, printed and read again is the same value. */
  lemma {:induction false} ReadPrintRead(s: string)
    requires Read(s).Ok? && Exact(Read(s).value)
    ensures Read(Print(Read(s).value)) == Ok(Read(s).value, [])
  {
    ReadGivesWellFormed(s);
    RoundTripIff(Read(s).value);
  }

  // ---- the stream methods ----

  /** The outcome of a reading method: its value, with the stream left at the rest, or an exception. */
  ghost predicate Yields<T>(p: Parse<T>, r: Option<T>, rest: string) {
    match p
    case Ok(v, s) => r == Some(v) && rest == s
    case Fail => r == None
  }

  lemma {:induction false} RunStep(s: string)
    ensures if s != [] && InNumber(s[0]) then Run(s) == [s[0]] + Run(s[1..]) && Dots(Run(s)) == (if s[0] == '.' then 1 else 0) + Dots(Run(s[1..]))
            else Run(s) == []
  {
    if s != [] && InNumber(s[0]) { assert Run(s)[1..] == Run(s[1..]); }
  }

  lemma {:induction false} DotsAppend(a: string, b: string)
    ensures Dots(a + b) == Dots(a) + Dots(b)
  {
    if a == [] {
      assert a + b == b;
    } else {
      assert (a + b)[1..] == a[1..] + b;
      DotsAppend(a[1..], b);
    }
  }

  class InputStream {
    var input: string

    constructor (text: string)
      ensures input == text
    {
      input := text;
    }

    method ReadChar() returns (c: Option<char>)
      modifies this
      ensures old(input) == [] ==> c == None
      ensures old(input) != [] ==> c == Some(old(input)[0]) && input == old(input)[1..]
    {
      if input == [] {
        return None;
      }
      c := Some(input[0]);
      input := input[1..];
    }

    method ReadNonWsChar() returns (c: Option<char>)
      modifies this
      ensures Yields(NonSpace(old(input)), c, input)
    {
      c := ReadChar();
      while c.Some? && IsSpace(c.value)
        invariant c.Some? ==> NonSpace(old(input)) == NonSpace([c.value] + input)
        invariant c.None? ==> NonSpace(old(input)).Fail?
        decreases c.Some?, |input|
      {
        assert ([c.value] + input)[1..] == input;
        assert NonSpace(old(input)) == NonSpace(input);
        c := ReadChar();
      }
      if c.Some? {
        assert ([c.value] + input)[1..] == input;
      }
    }

    method ReadStringToken() returns (token: Option<string>)
      modifies this
      ensures Yields(ReadToken(old(input)), token, input)
    {
      hide ReadToken, Before;
      var value: string := [];
      BeforeNothing(ReadToken(input));
      while true
        invariant ReadToken(old(input)) == Before(value, ReadToken(input))
        decreases |input|
      {
        BeforeTwice(value, input);
        ghost var before := input;
        var c := ReadChar();
        if c.None? {
          return None;
        }
        if c.value == '"' {
          return Some(value);
        }
        if c.value == '\\' {
          value := value + [c.value];
          c := ReadChar();
          if c.None? {
            return None;
          }
          assert value + [c.value] == value[..|value| - 1] + before[..2];
        } else {
          assert before[..1] == [c.value];
        }
        value := value + [c.value];
      }
    }

    /** Takes digits and dots while they come, and counts the dots. */
    method ScanNumber() returns (digits: string, dots: nat)
      modifies this
      ensures digits == Run(old(input)) && dots == Dots(digits) && input == old(input)[|digits|..]
    {
      hide Run, Dots;
      digits, dots := [], 0;
      NoDots();
      while input != [] && InNumber(input[0])
        invariant digits + Run(input) == Run(old(input)) && digits + input == old(input)
        invariant dots == Dots(digits)
        decreases |input|
      {
        RunStep(input);
        DotsAppend(digits, [input[0]]);
        OneDot(input[0]);
        assert digits + [input[0]] + Run(input[1..]) == digits + ([input[0]] + Run(input[1..]));
        if input[0] == '.' {
          dots := dots + 1;
        }
        digits := digits + [input[0]];
        input := input[1..];
      }
      RunStep(input);
      assert digits + [] == digits;
    }

    /** An exponent only follows a dot. */
    method ReadNumber(first: char) returns (v: Option<Value>)
      requires first == '-' || IsDigit(first)
      modifies this
      ensures Yields(ParseNumber(first, old(input)), v, input)
    {
      hide IntOf, ReadExponent, Run;
      var digits, dots := ScanNumber();
      var text := [first] + digits;
      if dots > 0 {
        if dots > 1 {
          return None;
        }
        v := ReadRest(text);
      } else {
        if |text| > 1 && (text[0] == '0' || (text[0] == '-' && text[1] == '0')) {
          return None;
        }
        assert forall i :: 1 <= i < |text| ==> text[i] == digits[i - 1];
        v := Some(Integer(IntOf(text)));
      }
    }

    method ScanDigits() returns (digits: string)
      modifies this
      ensures digits == DigitRun(old(input)) && input == old(input)[|digits|..]
    {
      hide DigitRun;
      digits := [];
      assert [] + DigitRun(input) == DigitRun(input);
      while input != [] && IsDigit(input[0])
        invariant digits + DigitRun(input) == DigitRun(old(input)) && digits + input == old(input)
        decreases |input|
      {
        DigitStep(digits, input);
        digits := digits + [input[0]];
        input := input[1..];
      }
      NoDigits(input);
      assert digits + [] == digits;
    }

    method ReadRest(mantissa: string) returns (v: Option<Value>)
      modifies this
      ensures Yields(ReadExponent(mantissa, old(input)), v, input)
    {
      hide DigitRun;
      if input == [] || input[0] != 'e' {
        return Some(Real(mantissa));
      }
      var k := if |input| > 1 && (input[1] == '+' || input[1] == '-') then 2 else 1;
      var text := mantissa + input[..k];
      input := input[k..];
      if input == [] || !IsDigit(input[0]) {
        NoDigits(input);
        return None;
      }
      ghost var after := input;
      SomeDigits(input);
      var digits := ScanDigits();
      assert after[|digits|..] == old(input)[k + |digits|..];
      v := Some(Real(text + digits));
    }

    method ReadWord(word: string, value: Value) returns (v: Option<Value>)
      modifies this
      ensures Yields(Literal(old(input), word, value), v, input)
    {
      if |input| < |word| || input[..|word|] != word {
        return None;
      }
      input := input[|word|..];
      v := Some(value);
    }

    /** The value on the stream, decided by its first character. */
    method ReadValue() returns (v: Option<Value>)
      modifies this
      ensures Yields(Read(old(input)), v, input)
      decreases |input|, 1
    {
      hide ParseArray, ParseObject, ParseNumber, ReadToken, Literal;
      var c := ReadNonWsChar();
      if c.None? {
        return None;
      }
      if c.value == '[' {
        v := ReadArray();
      } else if c.value == 't' {
        v := ReadWord("rue", Bool(true));
      } else if c.value == 'f' {
        v := ReadWord("alse", Bool(false));
      } else if c.value == '-' || IsDigit(c.value) {
        v := ReadNumber(c.value);
      } else if c.value == 'n' {
        v := ReadWord("ull", Nil);
      } else if c.value == '{' {
        v := ReadObject();
      } else if c.value == '"' {
        var t := ReadStringToken();
        v := if t.Some? then Some(String(t.value)) else None;
      } else {
        v := None;
      }
    }

    method ReadArray() returns (v: Option<Value>)
      modifies this
      ensures Yields(ParseArray(old(input)), v, input)
      decreases |input|, 3
    {
      hide Read;
      var value: seq<Value> := [];
      var c := ReadNonWsChar();
      if c.None? {
        return None;
      }
      if c.value != ']' {
        input := [c.value] + input;
        assert input == SkipSpace(old(input));
        while true
          invariant |input| <= |old(input)|
          invariant ParseArray(old(input)) == ReadItems(input, value)
          decreases |input|
        {
          var item := ReadValue();
          if item.None? {
            return None;
          }
          c := ReadNonWsChar();
          if c.None? {
            return None;
          }
          value := value + [item.value];
          if c.value == ']' {
            break;
          }
          if c.value != ',' {
            return None;
          }
        }
      }
      v := Some(Array(value));
    }

    method ReadObject() returns (v: Option<Value>)
      modifies this
      ensures Yields(ParseObject(old(input)), v, input)
      decreases |input|, 3
    {
      hide Read, ReadToken, Put;
      var value: seq<Member> := [];
      var c := ReadNonWsChar();
      if c.None? {
        return None;
      }
      if c.value != '}' {
        while true
          invariant c.Some? && |input| < |old(input)|
          invariant ParseObject(old(input)) == ReadMembers(c.value, input, value)
          decreases |input|
        {
          if c.value != '"' {
            return None;
          }
          var name := ReadStringToken();
          if name.None? {
            return None;
          }
          c := ReadNonWsChar();
          if c.None? || c.value != ':' {
            return None;
          }
          var item := ReadValue();
          if item.None? {
            return None;
          }
          value := Put(value, name.value, item.value);
          c := ReadNonWsChar();
          if c.None? {
            return None;
          }
          if c.value == '}' {
            break;
          }
          if c.value != ',' {
            return None;
          }
          c := ReadNonWsChar();
          if c.None? {
            return None;
          }
        }
      }
      v := Some(Object(value));
    }
  }

  lemma {:induction false} BeforeNothing(r: Parse<string>)
    ensures Before([], r) == r
  {
    if r.Ok? { assert [] + r.value == r.value; }
  }

  /** One round of reading a token, with the text read so far in front. */
  lemma {:induction false} BeforeTwice(front: string, s: string)
    ensures s != [] && s[0] == '"' ==> Before(front, ReadToken(s)) == Ok(front, s[1..])
    ensures |s| >= 2 && s[0] == '\\' ==> Before(front, ReadToken(s)) == Before(front + s[..2], ReadToken(s[2..]))
    ensures s != [] && s[0] != '"' && s[0] != '\\' ==> Before(front, ReadToken(s)) == Before(front + s[..1], ReadToken(s[1..]))
    ensures s == [] || s == "\\" ==> Before(front, ReadToken(s)) == Fail
  {
    assert front + [] == front;
    if |s| >= 2 && s[0] == '\\' && ReadToken(s[2..]).Ok? {
      assert front + (s[..2] + ReadToken(s[2..]).value) == front + s[..2] + ReadToken(s[2..]).value;
    }
    if s != [] && s[0] != '"' && s[0] != '\\' && ReadToken(s[1..]).Ok? {
      assert front + (s[..1] + ReadToken(s[1..]).value) == front + s[..1] + ReadToken(s[1..]).value;
    }
  }

  lemma {:induction false} NoDots()
    ensures Dots([]) == 0
  {
  }

  lemma {:induction false} OneDot(c: char)
    ensures Dots([c]) == if c == '.' then 1 else 0
  {
  }

  lemma {:induction false} DigitStep(front: string, s: string)
    requires s != [] && IsDigit(s[0])
    ensures front + DigitRun(s) == front + [s[0]] + DigitRun(s[1..])
  {
    assert front + ([s[0]] + DigitRun(s[1..])) == front + [s[0]] + DigitRun(s[1..]);
  }

  lemma {:induction false} NoDigits(s: string)
    requires s == [] || !IsDigit(s[0])
    ensures DigitRun(s) == []
  {
  }

  lemma {:induction false} SomeDigits(s: string)
    requires s != [] && IsDigit(s[0])
    ensures DigitRun(s) != []
  {
  }

  /** The second and later items, each after a comma. */
  function MoreItems(items: seq<Value>): string
    requires forall i :: 0 <= i < |items| ==> Exact(items[i])
  {
    if items == [] then [] else "," + Print(items[0]) + MoreItems(items[1..])
  }

  lemma {:induction false} ItemsFrom(items: seq<Value>)
    requires items != [] && forall i :: 0 <= i < |items| ==> Exact(items[i])
    ensures PrintItems(items) == Print(items[0]) + MoreItems(items[1..])
  {
    hide Print;
    if |items| > 1 {
      ItemsFrom(items[1..]);
      var a, b, c := Print(items[0]), Print(items[1]), MoreItems(items[2..]);
      assert items[1..][1..] == items[2..];
      assert a + "," + (b + c) == a + ("," + b + c);
    }
  }

  lemma {:induction false} MoreItemsStep(items: seq<Value>, i: nat, front: string)
    requires i < |items| && forall i :: 0 <= i < |items| ==> Exact(items[i])
    ensures front + MoreItems(items[i..]) == front + "," + Print(items[i]) + MoreItems(items[i + 1..])
  {
    hide Print;
    assert items[i..][1..] == items[i + 1..];
    var a, b := Print(items[i]), MoreItems(items[i + 1..]);
    assert front + ("," + a + b) == front + "," + a + b;
  }

  function MoreMembers(members: seq<Member>): string
    requires forall i :: 0 <= i < |members| ==> Exact(members[i].value)
  {
    if members == [] then [] else "," + PrintMember(members[0]) + MoreMembers(members[1..])
  }

  lemma {:induction false} MembersFrom(members: seq<Member>)
    requires members != [] && forall i :: 0 <= i < |members| ==> Exact(members[i].value)
    ensures PrintMembers(members) == PrintMember(members[0]) + MoreMembers(members[1..])
  {
    hide PrintMember;
    if |members| > 1 {
      MembersFrom(members[1..]);
      var a, b, c := PrintMember(members[0]), PrintMember(members[1]), MoreMembers(members[2..]);
      assert members[1..][1..] == members[2..];
      assert a + "," + (b + c) == a + ("," + b + c);
    }
  }

  lemma {:induction false} MoreMembersStep(members: seq<Member>, i: nat, front: string)
    requires i < |members| && forall i :: 0 <= i < |members| ==> Exact(members[i].value)
    ensures front + MoreMembers(members[i..]) == front + "," + PrintMember(members[i]) + MoreMembers(members[i + 1..])
  {
    hide PrintMember;
    assert members[i..][1..] == members[i + 1..];
    var a, b := PrintMember(members[i]), MoreMembers(members[i + 1..]);
    assert front + ("," + a + b) == front + "," + a + b;
  }

  class OutputStream {
    var text: string

    constructor ()
      ensures text == []
    {
      text := [];
    }

    /** Appends exactly the text of the value. */
    method Write(v: Value)
      requires Exact(v)
      modifies this
      ensures text == old(text) + Print(v)
      decreases v
    {
      hide PrintItems, PrintMembers, PrintInt;
      match v
      case Array(items) =>
        text := text + "[";
        WriteItems(items);
        text := text + "]";
        assert text == old(text) + ("[" + PrintItems(items) + "]");
      case Bool(b) => text := text + if b then "true" else "false";
      case Integer(n) => text := text + PrintInt(n);
      case Nil => text := text + "null";
      case Object(members) =>
        text := text + "{";
        WriteMembers(members);
        text := text + "}";
        assert text == old(text) + ("{" + PrintMembers(members) + "}");
      case String(t) => text := text + "\"" + t + "\"";
    }

    method WriteItems(items: seq<Value>)
      requires forall i :: 0 <= i < |items| ==> Exact(items[i])
      modifies this
      ensures text == old(text) + PrintItems(items)
      decreases items
    {
      hide Print;
      if |items| > 0 {
        Write(items[0]);
        ItemsFrom(items);
        for i := 1 to |items|
          invariant text + MoreItems(items[i..]) == old(text) + PrintItems(items)
        {
          MoreItemsStep(items, i, text);
          text := text + ",";
          Write(items[i]);
        }
      }
    }

    method WriteMember(m: Member)
      requires Exact(m.value)
      modifies this
      ensures text == old(text) + PrintMember(m)
      decreases m
    {
      hide Print;
      text := text + ("\"" + m.key + "\":");
      Write(m.value);
      ghost var a, b := "\"" + m.key + "\":", Print(m.value);
      assert old(text) + a + b == old(text) + (a + b);
    }

    method WriteMembers(members: seq<Member>)
      requires forall i :: 0 <= i < |members| ==> Exact(members[i].value)
      modifies this
      ensures text == old(text) + PrintMembers(members)
      decreases members
    {
      hide PrintMember;
      if |members| > 0 {
        WriteMember(members[0]);
        MembersFrom(members);
        for i := 1 to |members|
          invariant text + MoreMembers(members[i..]) == old(text) + PrintMembers(members)
        {
          MoreMembersStep(members, i, text);
          text := text + ",";
          WriteMember(members[i]);
        }
      }
    }
  }
}
