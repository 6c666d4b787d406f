/**
 * Which texts the JSON reader accepts, and as what: the tokens of a value, spread out with
 * white space in front of each. Nothing else may stand between tokens.
 */
module JsonGrammar {
  import opened Json

  // ---- white space ----

  /** Blank, tab, newline, carriage return, vertical tab and form feed. */
  const BLANKS := " \t\n\r\U{000B}\U{000C}"

  ghost predicate Blank(s: string) {
    forall i :: 0 <= i < |s| ==> s[i] in BLANKS
  }

  lemma {:induction false} SpaceIsBlank(c: char)
    ensures IsSpace(c) <==> c in BLANKS
  {
    assert BLANKS == [' ', '\t', '\n', '\r', '\U{000B}', '\U{000C}'];
    assert '\U{000B}' as int == 11 && '\U{000C}' as int == 12 && '\t' as int == 9 && '\n' as int == 10 && '\r' as int == 13;
    if IsSpace(c) && c != ' ' {
      var n := c as int;
      assert 9 <= n <= 13;
      assert n == 9 || n == 10 || n == 11 || n == 12 || n == 13;
      assert c == n as char;
    }
  }

  /** White space in front changes nothing. */
  lemma {:induction false} GapIsSkipped(gap: string, s: string)
    requires Blank(gap)
    ensures SkipSpace(gap + s) == SkipSpace(s) && NonSpace(gap + s) == NonSpace(s)
  {
    if gap == [] {
      assert gap + s == s;
    } else {
      SpaceIsBlank(gap[0]);
      assert (gap + s)[0] == gap[0] && (gap + s)[1..] == gap[1..] + s;
      GapIsSkipped(gap[1..], s);
    }
  }

  /** What is skipped is white space. */
  lemma {:induction false} SkippedIsGap(s: string) returns (gap: string)
    ensures Blank(gap) && s == gap + SkipSpace(s)
  {
    if s != [] && IsSpace(s[0]) {
      SpaceIsBlank(s[0]);
      var rest := SkippedIsGap(s[1..]);
      gap := [s[0]] + rest;
    } else {
      gap := [];
    }
  }

  // ---- tokens and the gaps before them ----

  function Spread(ts: seq<string>, gaps: seq<string>): string
    requires |gaps| == |ts|
  {
    if ts == [] then [] else gaps[0] + ts[0] + Spread(ts[1..], gaps[1..])
  }

  ghost predicate AllBlank(gaps: seq<string>) {
    forall i :: 0 <= i < |gaps| ==> Blank(gaps[i])
  }

  lemma {:induction false} SpreadAppend(a: seq<string>, b: seq<string>, ga: seq<string>, gb: seq<string>)
    requires |ga| == |a| && |gb| == |b|
    ensures Spread(a + b, ga + gb) == Spread(a, ga) + Spread(b, gb)
  {
    if a == [] {
      assert a + b == b && ga + gb == gb;
    } else {
      assert (a + b)[1..] == a[1..] + b && (ga + gb)[1..] == ga[1..] + gb;
      SpreadAppend(a[1..], b, ga[1..], gb);
    }
  }

  lemma {:induction false} SpreadSplit(ts: seq<string>, gaps: seq<string>, k: nat)
    requires |gaps| == |ts| && k <= |ts|
    ensures Spread(ts, gaps) == Spread(ts[..k], gaps[..k]) + Spread(ts[k..], gaps[k..])
  {
    assert ts == ts[..k] + ts[k..] && gaps == gaps[..k] + gaps[k..];
    SpreadAppend(ts[..k], ts[k..], gaps[..k], gaps[k..]);
  }

  lemma {:induction false} SpreadOne(t: string, gap: string)
    ensures Spread([t], [gap]) == gap + t
  {
    assert [t][1..] == [] && [gap][1..] == [];
  }

  // ---- the grammar ----

  ghost predicate Exponent(e: string) {
    && |e| >= 2 && e[0] == 'e'
    && var k := if e[1] == '+' || e[1] == '-' then 2 else 1;
    && |e| > k && forall i :: k <= i < |e| ==> IsDigit(e[i])
  }

  /** A sign or digit, then digits around one dot, then perhaps an exponent. */
  ghost predicate RealParts(t: string, run: string, e: string) {
    && t != [] && (t[0] == '-' || IsDigit(t[0])) && t == [t[0]] + run + e
    && (forall i :: 0 <= i < |run| ==> InNumber(run[i])) && Dots(run) == 1
    && (e == [] || Exponent(e))
  }

  /** The members in the order they are written; a later one replaces an earlier one of the same key. */
  function PutAll(m: seq<Member>, l: seq<Member>): seq<Member>
    decreases |l|
  {
    if l == [] then m else PutAll(Put(m, l[0].key, l[0].value), l[1..])
  }

  /** The tokens spell the value. */
  ghost predicate Denotes(ts: seq<string>, v: Value)
    decreases |ts|, 1
  {
    match v
    case Array(items) => |ts| >= 2 && ts[0] == "[" && ts[|ts| - 1] == "]" && ItemsDenote(ts[1..|ts| - 1], items)
    case Object(members) =>
      |ts| >= 2 && ts[0] == "{" && ts[|ts| - 1] == "}" &&
      exists l :: MembersDenote(ts[1..|ts| - 1], l) && members == PutAll([], l)
    case Bool(b) => ts == [if b then "true" else "false"]
    case Nil => ts == ["null"]
    case Integer(n) => |ts| == 1 && IsIntText(ts[0]) && IntOf(ts[0]) == n
    case Real(literal) => ts == [literal] && exists run, e :: RealParts(literal, run, e)
    case String(text) => ts == ["\"" + text + "\""] && IsToken(text)
  }

  /** Items with a comma between each two. */
  ghost predicate ItemsDenote(ts: seq<string>, items: seq<Value>)
    decreases |ts|, 3
  {
    if items == [] then ts == [] else exists k :: ItemAt(ts, items, k)
  }

  /** The first item takes k tokens. */
  ghost predicate ItemAt(ts: seq<string>, items: seq<Value>, k: nat)
    requires items != []
    decreases |ts|, 2
  {
    && 0 < k <= |ts| && Denotes(ts[..k], items[0])
    && if |items| == 1 then k == |ts| else k < |ts| && ts[k] == "," && ItemsDenote(ts[k + 1..], items[1..])
  }

  /** Key, colon and value, with a comma between each two. */
  ghost predicate MembersDenote(ts: seq<string>, l: seq<Member>)
    decreases |ts|, 3
  {
    if l == [] then ts == [] else exists k :: MemberAt(ts, l, k)
  }

  ghost predicate MemberAt(ts: seq<string>, l: seq<Member>, k: nat)
    requires l != []
    decreases |ts|, 2
  {
    && 2 < k <= |ts| && ts[0] == "\"" + l[0].key + "\"" && IsToken(l[0].key) && ts[1] == ":" && Denotes(ts[2..k], l[0].value)
    && if |l| == 1 then k == |ts| else k < |ts| && ts[k] == "," && MembersDenote(ts[k + 1..], l[1..])
  }

  /** What follows must not look like more of a number. */
  ghost predicate StopsBefore(ts: seq<string>, v: Value, rest: string)
    requires Denotes(ts, v)
  {
    rest == [] ||
    ((v.Integer? ==> !InNumber(rest[0])) &&
     (v.Real? ==> if 'e' in v.literal then !IsDigit(rest[0]) else !InNumber(rest[0]) && rest[0] != 'e'))
  }

  // ---- what the reader sees first ----

  lemma {:induction false} FirstToken(ts: seq<string>, v: Value)
    requires Denotes(ts, v)
    ensures ts != [] && ts[0] != [] && !IsSpace(ts[0][0]) && ts[0][0] != ']'
  {
    hide ItemsDenote, MembersDenote, IntOf, PutAll;
    if v.Real? {
      var run, e :| RealParts(v.literal, run, e);
    }
  }

  /** Read depends only on what is left after the white space in front. */
  lemma {:induction false} ReadSkips(gap: string, s: string)
    requires Blank(gap)
    ensures Read(gap + s) == Read(s)
  {
    hide ParseArray, ParseObject, ParseNumber, ReadToken, Literal, NonSpace;
    GapIsSkipped(gap, s);
  }

  lemma {:induction false} ReadItemsSkips(s: string, items: seq<Value>)
    ensures ReadItems(SkipSpace(s), items) == ReadItems(s, items)
  {
    var gap := SkippedIsGap(s);
    hide Read;
    ReadSkips(gap, SkipSpace(s));
  }

  // ---- numbers ----

  lemma {:induction false} DigitRunOf(run: string, tail: string)
    requires (forall i :: 0 <= i < |run| ==> IsDigit(run[i])) && (tail == [] || !IsDigit(tail[0]))
    ensures DigitRun(run + tail) == run
  {
    if run == [] {
      assert run + tail == tail;
    } else {
      assert (run + tail)[1..] == run[1..] + tail;
      DigitRunOf(run[1..], tail);
    }
  }

  lemma {:induction false} ExponentIsRead(text: string, e: string, rest: string)
    requires e == [] || Exponent(e)
    requires rest == [] || if e == [] then rest[0] != 'e' else !IsDigit(rest[0])
    ensures ReadExponent(text, e + rest) == Ok(Real(text + e), rest)
  {
    hide DigitRun;
    var s := e + rest;
    if e == [] {
      assert s == rest && text + e == text;
    } else {
      var k := if e[1] == '+' || e[1] == '-' then 2 else 1;
      assert s[1] == e[1];
      CutConcat(e, rest, k);
      assert forall i :: 0 <= i < |e[k..]| ==> IsDigit(e[k..][i]);
      DigitRunOf(e[k..], rest);
      assert text + (e[..k] + e[k..]) == text + e[..k] + e[k..];
    }
  }

  lemma {:induction false} CutConcat(a: string, b: string, k: nat)
    requires k <= |a|
    ensures (a + b)[k..] == a[k..] + b && (a + b)[..k] == a[..k] && a[..k] + a[k..] == a && (a + b)[|a|..] == b
  {
  }

  lemma {:induction false} NoLetter(t: string, run: string, e: string)
    requires RealParts(t, run, e)
    ensures 'e' in t <==> e != []
  {
    assert t == [t[0]] + run + e;
    if e != [] { assert t[1 + |run|] == 'e'; }
  }

  lemma {:induction false} RealIsRead(t: string, run: string, e: string, rest: string)
    requires RealParts(t, run, e)
    requires rest == [] || if 'e' in t then !IsDigit(rest[0]) else !InNumber(rest[0]) && rest[0] != 'e'
    ensures ParseNumber(t[0], t[1..] + rest) == Ok(Real(t), rest)
  {
    hide Dots, Run, ReadExponent;
    NoLetter(t, run, e);
    var tail := e + rest;
    assert t[1..] + rest == run + tail;
    RunOf(run, tail);
    assert (run + tail)[|run|..] == tail;
    ExponentIsRead([t[0]] + run, e, rest);
  }

  lemma {:induction false} NumberIsRead(ts: seq<string>, v: Value, rest: string)
    requires Denotes(ts, v) && (v.Integer? || v.Real?) && StopsBefore(ts, v, rest)
    ensures ParseNumber(ts[0][0], ts[0][1..] + rest) == Ok(v, rest)
  {
    hide ParseNumber, IntOf;
    var t := ts[0];
    if v.Integer? {
      IntTextIsRead(t, rest);
    } else {
      var run, e :| RealParts(t, run, e);
      RealIsRead(t, run, e, rest);
    }
  }

  // ---- spread-out tokens are read ----

  /** Punctuation stops a number, with or without white space before it. */
  lemma {:induction false} PunctuationStops(ts: seq<string>, v: Value, gap: string, c: char, tail: string)
    requires Denotes(ts, v) && Blank(gap) && (c == ',' || c == ']' || c == '}')
    ensures StopsBefore(ts, v, gap + ([c] + tail)) && NonSpace(gap + ([c] + tail)) == Ok(c, tail)
  {
    hide Denotes;
    var s := [c] + tail;
    GapIsSkipped(gap, s);
    NonSpaceHere(s);
    assert s[1..] == tail;
    if gap != [] {
      assert gap[0] in BLANKS;
      SpaceIsBlank(gap[0]);
      assert (gap + s)[0] == gap[0];
    } else {
      assert gap + s == s;
    }
  }

  /** A text that begins with a gap and a token. */
  lemma {:induction false} FirstOf(ts: seq<string>, gaps: seq<string>, rest: string)
    requires ts != [] && |gaps| == |ts|
    ensures Spread(ts, gaps) + rest == gaps[0] + (ts[0] + (Spread(ts[1..], gaps[1..]) + rest))
  {
  }

  /** The tokens of a value, with any white space before each, are read as the value, up to exactly where they end. */
  lemma {:induction false} SpreadIsRead(ts: seq<string>, gaps: seq<string>, v: Value, rest: string)
    requires Denotes(ts, v) && |gaps| == |ts| && AllBlank(gaps) && StopsBefore(ts, v, rest)
    ensures Read(Spread(ts, gaps) + rest) == Ok(v, rest)
    decreases |ts|, 1
  {
    hide Read, ParseArray, ParseObject, ReadToken, ParseNumber, Spread, ItemsDenote, MembersDenote, PutAll, Blank, IntOf;
    FirstToken(ts, v);
    var n := |ts| - 1;
    var tail := Spread(ts[1..], gaps[1..]) + rest;
    FirstOf(ts, gaps, rest);
    ReadSkips(gaps[0], ts[0] + tail);
    assert ts[0] + tail == [ts[0][0]] + (ts[0][1..] + tail);
    ReadOpens(ts[0][0], ts[0][1..] + tail);
    match v
    case Array(items) =>
      assert ts[0][1..] + tail == tail && ts[1..] == ts[1..n] + ["]"];
      ArrayIsRead(ts[1..n], gaps[1..], items, rest);
    case Object(members) =>
      assert ts[0][1..] + tail == tail && ts[1..] == ts[1..n] + ["}"];
      var l :| MembersDenote(ts[1..n], l) && members == PutAll([], l);
      ObjectIsRead(ts[1..n], gaps[1..], l, rest);
    case Bool(_) =>
      OnlyToken(ts, gaps, rest);
      WordIsRead(v, rest);
    case Nil =>
      OnlyToken(ts, gaps, rest);
      WordIsRead(v, rest);
    case String(text) =>
      OnlyToken(ts, gaps, rest);
      StringIsRead(text, rest);
      assert ts[0] + rest == "\"" + text + "\"" + rest;
    case _ =>
      OnlyToken(ts, gaps, rest);
      NumberIsRead(ts, v, rest);
  }

  lemma {:induction false} OnlyToken(ts: seq<string>, gaps: seq<string>, rest: string)
    requires |ts| == |gaps| == 1
    ensures Spread(ts[1..], gaps[1..]) + rest == rest
  {
  }

  lemma {:induction false} ArrayIsRead(ts: seq<string>, gaps: seq<string>, items: seq<Value>, rest: string)
    requires ItemsDenote(ts, items) && |gaps| == |ts| + 1 && AllBlank(gaps)
    ensures ParseArray(Spread(ts + ["]"], gaps) + rest) == Ok(Array(items), rest)
    decreases |ts|, 4
  {
    hide Read, Spread, ReadItems, Blank, Denotes;
    var text := Spread(ts + ["]"], gaps) + rest;
    if items == [] {
      assert ts + ["]"] == ["]"] && gaps == [gaps[0]];
      SpreadOne("]", gaps[0]);
      assert text == gaps[0] + ("]" + rest);
      GapIsSkipped(gaps[0], "]" + rest);
      NonSpaceHere("]" + rest);
      assert ("]" + rest)[1..] == rest;
    } else {
      var k: nat :| ItemAt(ts, items, k);
      var all := ts + ["]"];
      FirstToken(ts[..k], items[0]);
      assert all[0] == ts[..k][0];
      FirstOf(all, gaps, rest);
      var s := all[0] + (Spread(all[1..], gaps[1..]) + rest);
      GapIsSkipped(gaps[0], s);
      assert s[0] == all[0][0];
      NonSpaceHere(s);
      ReadItemsSkips(text, []);
      ItemsAreSpread(ts, gaps, items, [], rest);
      assert [] + items == items;
    }
  }

  lemma {:induction false} ItemsAreSpread(ts: seq<string>, gaps: seq<string>, items: seq<Value>, done: seq<Value>, rest: string)
    requires items != [] && ItemsDenote(ts, items) && |gaps| == |ts| + 1 && AllBlank(gaps)
    ensures ReadItems(Spread(ts + ["]"], gaps) + rest, done) == Ok(Array(done + items), rest)
    decreases |ts|, 3
  {
    hide Read, Spread, Blank, Denotes, NonSpace;
    var all := ts + ["]"];
    var k: nat :| ItemAt(ts, items, k);
    SpreadSplit(all, gaps, k);
    var after := Spread(all[k..], gaps[k..]) + rest;
    var tail := Spread(all[k + 1..], gaps[k + 1..]) + rest;
    FirstOf(all[k..], gaps[k..], rest);
    assert all[k..][1..] == all[k + 1..] && gaps[k..][1..] == gaps[k + 1..];
    assert all[..k] == ts[..k];
    assert all[k] == [all[k][0]];
    assert after == gaps[k] + ([all[k][0]] + tail);
    PunctuationStops(ts[..k], items[0], gaps[k], all[k][0], tail);
    SpreadIsRead(ts[..k], gaps[..k], items[0], after);
    assert Spread(all, gaps) + rest == Spread(ts[..k], gaps[..k]) + after;
    if |items| == 1 {
      assert all[k + 1..] == [] && gaps[k + 1..] == [];
      NothingSpread();
      assert tail == rest && done + [items[0]] == done + items;
    } else {
      assert all[k + 1..] == ts[k + 1..] + ["]"];
      ItemsAreSpread(ts[k + 1..], gaps[k + 1..], items[1..], done + [items[0]], rest);
      assert done + [items[0]] + items[1..] == done + items;
    }
  }

  lemma {:induction false} NothingSpread()
    ensures Spread([], []) == []
  {
  }

  lemma {:induction false} ObjectIsRead(ts: seq<string>, gaps: seq<string>, l: seq<Member>, rest: string)
    requires MembersDenote(ts, l) && |gaps| == |ts| + 1 && AllBlank(gaps)
    ensures ParseObject(Spread(ts + ["}"], gaps) + rest) == Ok(Object(PutAll([], l)), rest)
    decreases |ts|, 4
  {
    hide Read, Spread, ReadMembers, Blank, Denotes;
    var text := Spread(ts + ["}"], gaps) + rest;
    if l == [] {
      assert ts + ["}"] == ["}"] && gaps == [gaps[0]];
      SpreadOne("}", gaps[0]);
      assert text == gaps[0] + ("}" + rest);
      GapIsSkipped(gaps[0], "}" + rest);
      NonSpaceHere("}" + rest);
      assert ("}" + rest)[1..] == rest;
    } else {
      MembersAreSpread(ts, gaps, l, [], rest);
    }
  }

  /** A key, its colon, and what comes after them. */
  lemma {:induction false} KeyIsRead(key: string, gaps: seq<string>, tail: string)
    requires IsToken(key) && |gaps| == 2 && AllBlank(gaps)
    ensures var text := gaps[0] + (("\"" + key + "\"") + (gaps[1] + (":" + tail)));
      && NonSpace(text).Ok? && NonSpace(text).value == '"' && ReadToken(NonSpace(text).rest).Ok?
      && ReadToken(NonSpace(text).rest).value == key
      && NonSpace(ReadToken(NonSpace(text).rest).rest) == Ok(':', tail)
  {
    hide ReadToken, NonSpace;
    var colon := gaps[1] + (":" + tail);
    var s := ("\"" + key + "\"") + colon;
    GapIsSkipped(gaps[0], s);
    NonSpaceHere(s);
    assert s[1..] == key + "\"" + colon;
    TokenIsRead(key, colon);
    GapIsSkipped(gaps[1], ":" + tail);
    NonSpaceHere(":" + tail);
    assert (":" + tail)[1..] == tail;
  }

  lemma {:induction false} MembersAreSpread(ts: seq<string>, gaps: seq<string>, l: seq<Member>, done: seq<Member>, rest: string)
    requires l != [] && MembersDenote(ts, l) && |gaps| == |ts| + 1 && AllBlank(gaps)
    ensures var text := Spread(ts + ["}"], gaps) + rest;
      && NonSpace(text).Ok? && NonSpace(text).value == '"'
      && ReadMembers('"', NonSpace(text).rest, done) == Ok(Object(PutAll(done, l)), rest)
    decreases |ts|, 3
  {
    hide Read, ReadToken, Spread, Blank, Denotes, NonSpace, Put;
    var all := ts + ["}"];
    var k: nat :| MemberAt(ts, l, k);
    var after := Spread(all[k..], gaps[k..]) + rest;
    var tail := Spread(all[k + 1..], gaps[k + 1..]) + rest;
    TextOfMember(all, gaps, k, rest);
    assert all[2..k] == ts[2..k];
    KeyIsRead(l[0].key, [gaps[0], gaps[1]], Spread(ts[2..k], gaps[2..k]) + after);
    assert all[k] == [all[k][0]];
    assert after == gaps[k] + ([all[k][0]] + tail);
    PunctuationStops(ts[2..k], l[0].value, gaps[k], all[k][0], tail);
    SpreadIsRead(ts[2..k], gaps[2..k], l[0].value, after);
    if |l| == 1 {
      assert all[k + 1..] == [] && gaps[k + 1..] == [];
      NothingSpread();
      assert tail == rest;
      assert l[1..] == [];
    } else {
      assert all[k + 1..] == ts[k + 1..] + ["}"];
      MembersAreSpread(ts[k + 1..], gaps[k + 1..], l[1..], Put(done, l[0].key, l[0].value), rest);
    }
  }

  /** The text of a member: key, colon, value, and the punctuation after it. */
  lemma {:induction false} TextOfMember(all: seq<string>, gaps: seq<string>, k: nat, rest: string)
    requires |gaps| == |all| && 2 < k < |all|
    ensures Spread(all, gaps) + rest ==
      gaps[0] + (all[0] + (gaps[1] + (all[1] + (Spread(all[2..k], gaps[2..k]) + (Spread(all[k..], gaps[k..]) + rest)))))
    ensures Spread(all[k..], gaps[k..]) + rest == gaps[k] + (all[k] + (Spread(all[k + 1..], gaps[k + 1..]) + rest))
  {
    hide Spread;
    FirstOf(all, gaps, rest);
    FirstOf(all[1..], gaps[1..], rest);
    assert all[1..][1..] == all[2..] && gaps[1..][1..] == gaps[2..];
    SpreadSplit(all[2..], gaps[2..], k - 2);
    assert all[2..][..k - 2] == all[2..k] && all[2..][k - 2..] == all[k..];
    assert gaps[2..][..k - 2] == gaps[2..k] && gaps[2..][k - 2..] == gaps[k..];
    FirstOf(all[k..], gaps[k..], rest);
    assert all[k..][1..] == all[k + 1..] && gaps[k..][1..] == gaps[k + 1..];
  }

  // ---- what is read was spread-out tokens ----

  lemma {:induction false} TokenSplit(s: string)
    requires ReadToken(s).Ok?
    ensures s == ReadToken(s).value + "\"" + ReadToken(s).rest
  {
    if s[0] == '"' {
    } else if s[0] == '\\' {
      TokenSplit(s[2..]);
      assert s == s[..2] + s[2..];
    } else {
      TokenSplit(s[1..]);
      assert s == s[..1] + s[1..];
    }
  }

  lemma {:induction false} ExponentShape(s: string, k: nat, digits: string)
    requires |s| >= k == (if |s| > 1 && (s[1] == '+' || s[1] == '-') then 2 else 1) && s[0] == 'e'
    requires digits != [] && digits <= s[k..] && forall i :: 0 <= i < |digits| ==> IsDigit(digits[i])
    ensures Exponent(s[..k] + digits) && s == s[..k] + digits + s[k + |digits|..]
  {
    var e := s[..k] + digits;
    assert e[0] == s[0] && (k == 2 ==> e[1] == s[1]) && (k == 1 ==> e[1] == digits[0]);
    forall i | k <= i < |e|
      ensures IsDigit(e[i])
    {
      assert e[i] == digits[i - k];
    }
    assert s[k..][..|digits|] == digits;
  }

  lemma {:induction false} ExponentUnread(text: string, s: string) returns (e: string)
    requires ReadExponent(text, s).Ok?
    ensures e == [] || Exponent(e)
    ensures ReadExponent(text, s).value == Real(text + e) && s == e + ReadExponent(text, s).rest
    ensures var rest := ReadExponent(text, s).rest; rest == [] || if e == [] then rest[0] != 'e' else !IsDigit(rest[0])
  {
    hide DigitRun, Exponent;
    if s == [] || s[0] != 'e' {
      e := [];
      assert text + e == text && s == e + s;
    } else {
      var k := if |s| > 1 && (s[1] == '+' || s[1] == '-') then 2 else 1;
      var digits := DigitRun(s[k..]);
      ExponentShape(s, k, digits);
      e := s[..k] + digits;
      assert text + e == text + s[..k] + digits;
      if |digits| < |s[k..]| { assert s[k + |digits|] == s[k..][|digits|]; }
    }
  }

  lemma {:induction false} IntegerUnread(c: char, s: string)
    requires (c == '-' || IsDigit(c)) && ParseNumber(c, s).Ok? && Dots(Run(s)) == 0
    ensures var r := ParseNumber(c, s); var t := [c] + Run(s);
      IsIntText(t) && r.value == Integer(IntOf(t)) && s == Run(s) + r.rest && (r.rest == [] || !InNumber(r.rest[0]))
  {
    hide Run, IntOf;
    var run := Run(s);
    assert s == run + s[|run|..];
    assert forall i :: 0 <= i < |run| ==> run[i] in run;
    assert forall i :: 1 <= i < |[c] + run| ==> ([c] + run)[i] == run[i - 1];
  }

  lemma {:induction false} RealUnread(c: char, s: string) returns (e: string)
    requires (c == '-' || IsDigit(c)) && ParseNumber(c, s).Ok? && Dots(Run(s)) == 1
    ensures var r := ParseNumber(c, s);
      && r.value == Real([c] + Run(s) + e) && s == Run(s) + (e + r.rest) && RealParts([c] + Run(s) + e, Run(s), e)
      && (r.rest == [] || if e == [] then !InNumber(r.rest[0]) && r.rest[0] != 'e' else !IsDigit(r.rest[0]))
  {
    hide Run, ReadExponent, IntOf, Exponent, Dots;
    var run := Run(s);
    var tail := s[|run|..];
    assert s == run + tail && (tail == [] || tail[0] == s[|run|]);
    e := ExponentUnread([c] + run, tail);
    assert e == [] ==> tail == ParseNumber(c, s).rest;
  }

  lemma {:induction false} RealDenoted(t: string, run: string, e: string, rest: string)
    requires RealParts(t, run, e)
    requires rest == [] || if e == [] then !InNumber(rest[0]) && rest[0] != 'e' else !IsDigit(rest[0])
    ensures Denotes([t], Real(t)) && StopsBefore([t], Real(t), rest)
  {
    NoLetter(t, run, e);
    hide RealParts;
  }

  lemma {:induction false} NumberUnread(c: char, s: string) returns (t: string)
    requires (c == '-' || IsDigit(c)) && ParseNumber(c, s).Ok?
    ensures var r := ParseNumber(c, s); [c] + s == t + r.rest && Denotes([t], r.value) && StopsBefore([t], r.value, r.rest)
  {
    var run, r := Run(s), ParseNumber(c, s);
    assert Dots(run) <= 1;
    hide Run, ParseNumber, IntOf, Dots, RealParts;
    if Dots(run) == 1 {
      hide Denotes, StopsBefore;
      var e := RealUnread(c, s);
      t := [c] + run + e;
      Regrouped(c, run, e, r.rest);
      RealDenoted(t, run, e, r.rest);
    } else {
      IntegerUnread(c, s);
      t := [c] + run;
      Regrouped(c, run, [], r.rest);
    }
  }

  lemma {:induction false} Regrouped(c: char, run: string, e: string, rest: string)
    ensures [c] + (run + (e + rest)) == [c] + run + e + rest && [c] + (run + rest) == [c] + run + rest
  {
  }

  /** The text is the tokens of the value, white space before each, then the rest. */
  ghost predicate WrittenAs(ts: seq<string>, gaps: seq<string>, s: string, v: Value, rest: string) {
    && Denotes(ts, v) && |gaps| == |ts| && AllBlank(gaps)
    && s == Spread(ts, gaps) + rest && StopsBefore(ts, v, rest)
  }

  lemma {:induction false} ArrayDenoted(ts: seq<string>, v: Value, rest: string)
    requires |ts| >= 2 && ts[0] == "[" && ts[|ts| - 1] == "]" && v.Array? && ItemsDenote(ts[1..|ts| - 1], v.items)
    ensures Denotes(ts, v) && StopsBefore(ts, v, rest)
  {
    hide ItemsDenote;
  }

  lemma {:induction false} ObjectDenoted(ts: seq<string>, v: Value, rest: string)
    requires |ts| >= 2 && ts[0] == "{" && ts[|ts| - 1] == "}" && v.Object?
    requires exists l :: MembersDenote(ts[1..|ts| - 1], l) && v.members == PutAll([], l)
    ensures Denotes(ts, v) && StopsBefore(ts, v, rest)
  {
    hide MembersDenote, PutAll;
  }

  lemma {:induction false} Unread(s: string) returns (ts: seq<string>, gaps: seq<string>)
    requires Read(s).Ok?
    ensures WrittenAs(ts, gaps, s, Read(s).value, Read(s).rest)
    decreases |s|, 4
  {
    hide Read, ParseArray, ParseObject, ParseNumber, ReadToken, Denotes, StopsBefore, ItemsDenote, MembersDenote, PutAll, Blank, Spread;
    var gap, c, r := Opens(s);
    ReadOpens(c, r);
    if c == '[' {
      ts, gaps := ArrayOpened(s, gap, r);
    } else if c == '{' {
      ts, gaps := ObjectOpened(s, gap, r);
    } else {
      var t := OneUnread(c, r);
      ts, gaps := [t], [gap];
      SpreadOne(t, gap);
      assert gap + (t + Read(s).rest) == gap + t + Read(s).rest;
    }
  }

  lemma {:induction false} Opens(s: string) returns (gap: string, c: char, r: string)
    requires Read(s).Ok?
    ensures Blank(gap) && s == gap + ([c] + r) && !IsSpace(c) && Read([c] + r) == Read(s)
  {
    assert NonSpace(s).Ok?;
    hide Read;
    c, r, gap := Punctuation(s);
    ReadSkips(gap, [c] + r);
    assert !IsSpace(SkipSpace(s)[0]);
  }

  lemma {:induction false} ArrayOpened(s: string, gap: string, r: string) returns (ts: seq<string>, gaps: seq<string>)
    requires ParseArray(r).Ok? && ParseArray(r) == Read(s) && Blank(gap) && s == gap + ("[" + r)
    ensures WrittenAs(ts, gaps, s, Read(s).value, Read(s).rest)
    decreases |r|, 7
  {
    hide Read, ParseArray, Denotes, StopsBefore, ItemsDenote, Blank, Spread;
    var inner, spaces := ArrayUnread(r);
    ts, gaps := Enclosed("[", inner, "]", gap, spaces, Read(s).rest);
    ArrayDenoted(ts, Read(s).value, Read(s).rest);
  }

  lemma {:induction false} ObjectOpened(s: string, gap: string, r: string) returns (ts: seq<string>, gaps: seq<string>)
    requires ParseObject(r).Ok? && ParseObject(r) == Read(s) && Blank(gap) && s == gap + ("{" + r)
    ensures WrittenAs(ts, gaps, s, Read(s).value, Read(s).rest)
    decreases |r|, 7
  {
    hide Read, ParseObject, Denotes, StopsBefore, MembersDenote, PutAll, Blank, Spread;
    var inner, spaces := ObjectUnread(r);
    ts, gaps := Enclosed("{", inner, "}", gap, spaces, Read(s).rest);
    ObjectDenoted(ts, Read(s).value, Read(s).rest);
  }

  /** A value of one token. */
  lemma {:induction false} OneUnread(c: char, r: string) returns (t: string)
    requires Read([c] + r).Ok? && !IsSpace(c) && c != '[' && c != '{'
    ensures var p := Read([c] + r); [c] + r == t + p.rest && Denotes([t], p.value) && StopsBefore([t], p.value, p.rest)
  {
    hide ParseArray, ParseObject, ParseNumber, ReadToken, IntOf, ItemsDenote, MembersDenote, PutAll, Exponent;
    var s := [c] + r;
    NonSpaceHere(s);
    assert s[1..] == r;
    var p := Read(s);
    if c == '-' || IsDigit(c) {
      t := NumberUnread(c, r);
    } else if c == '"' {
      TokenSplit(r);
      ReadIsToken(r);
      t := "\"" + p.value.text + "\"";
      assert [c] + (p.value.text + "\"" + p.rest) == t + p.rest;
    } else {
      t := if c == 't' then "true" else if c == 'f' then "false" else "null";
      assert t == [c] + t[1..];
      assert r == t[1..] + p.rest;
    }
  }

  /** The tokens inside brackets, with the brackets. */
  lemma {:induction false} Enclosed(open: string, inner: seq<string>, close: string, gap: string, spaces: seq<string>, rest: string)
      returns (ts: seq<string>, gaps: seq<string>)
    requires |spaces| == |inner| + 1 && AllBlank(spaces) && Blank(gap)
    ensures |gaps| == |ts| == |inner| + 2 && AllBlank(gaps) && ts[0] == open && ts[|ts| - 1] == close && ts[1..|ts| - 1] == inner
    ensures Spread(ts, gaps) + rest == gap + (open + (Spread(inner + [close], spaces) + rest))
  {
    hide Spread, Blank;
    ts, gaps := [open] + (inner + [close]), [gap] + spaces;
    FirstOf(ts, gaps, rest);
    assert ts[1..] == inner + [close] && gaps[1..] == spaces;
  }

  lemma {:induction false} ArrayUnread(s: string) returns (ts: seq<string>, gaps: seq<string>)
    requires ParseArray(s).Ok?
    ensures var r := ParseArray(s);
      && r.value.Array? && ItemsDenote(ts, r.value.items) && |gaps| == |ts| + 1 && AllBlank(gaps)
      && s == Spread(ts + ["]"], gaps) + r.rest
    decreases |s|, 6
  {
    hide ReadItems, Denotes, Blank, Spread, NonSpace;
    var c, tail, gap := Punctuation(s);
    if c == ']' {
      ts, gaps := [], [gap];
      SpreadOne("]", gap);
      assert [] + ["]"] == ["]"] && "]" == [c];
      assert gap + ([c] + tail) == gap + [c] + tail;
    } else {
      ReadItemsSkips(s, []);
      var items;
      ts, gaps, items := ItemsUnread(s, []);
      assert [] + items == items;
    }
  }

  lemma {:induction false} ItemsUnread(s: string, done: seq<Value>) returns (ts: seq<string>, gaps: seq<string>, items: seq<Value>)
    requires ReadItems(s, done).Ok?
    ensures var r := ReadItems(s, done);
      && r.value == Array(done + items) && items != [] && ItemsDenote(ts, items)
      && |gaps| == |ts| + 1 && AllBlank(gaps) && s == Spread(ts + ["]"], gaps) + r.rest
    decreases |s|, 5
  {
    hide Read, Denotes, Blank, Spread, NonSpace;
    var first, before := Unread(s);
    FirstToken(first, Read(s).value);
    var v, after := Read(s).value, Read(s).rest;
    var c, tail, gap := Punctuation(after);
    if c == ']' {
      ts, gaps, items := first, before + [gap], [v];
      assert ts[..|ts|] == ts;
      assert ItemAt(ts, items, |ts|);
      SpreadThen(first, before, [c], gap, [], [], tail);
      assert first + [[c]] + [] == ts + ["]"] && before + [gap] + [] == gaps;
      NothingSpread();
      assert [] + tail == tail;
    } else {
      var more, spaces, others := ItemsUnread(tail, done + [v]);
      ts, gaps, items := first + [","] + more, before + [gap] + spaces, [v] + others;
      assert ts[..|first|] == first && ts[|first| + 1..] == more && items[1..] == others;
      assert ItemAt(ts, items, |first|);
      assert done + [v] + others == done + items;
      SpreadThen(first, before, [c], gap, more + ["]"], spaces, ReadItems(s, done).rest);
      assert first + [[c]] + (more + ["]"]) == ts + ["]"];
    }
  }

  /** The next character that is not white space, with the white space before it. */
  lemma {:induction false} Punctuation(s: string) returns (c: char, tail: string, gap: string)
    requires NonSpace(s).Ok?
    ensures NonSpace(s) == Ok(c, tail) && Blank(gap) && s == gap + ([c] + tail)
  {
    gap := SkippedIsGap(s);
    c, tail := NonSpace(s).value, NonSpace(s).rest;
    assert SkipSpace(s) == [c] + tail;
  }

  lemma {:induction false} SpreadThen(a: seq<string>, ga: seq<string>, t: string, gap: string, b: seq<string>, gb: seq<string>, rest: string)
    requires |ga| == |a| && |gb| == |b|
    ensures Spread(a + [t] + b, ga + [gap] + gb) + rest == Spread(a, ga) + (gap + (t + (Spread(b, gb) + rest)))
  {
    hide Spread;
    SpreadAppend(a + [t], b, ga + [gap], gb);
    SpreadAppend(a, [t], ga, [gap]);
    SpreadOne(t, gap);
  }

  lemma {:induction false} NoMembers()
    ensures MembersDenote([], []) && PutAll([], []) == []
  {
  }

  lemma {:induction false} ObjectUnread(s: string) returns (ts: seq<string>, gaps: seq<string>)
    requires ParseObject(s).Ok?
    ensures var r := ParseObject(s);
      && r.value.Object? && |gaps| == |ts| + 1 && AllBlank(gaps)
      && (exists l :: MembersDenote(ts, l) && r.value.members == PutAll([], l)) && s == Spread(ts + ["}"], gaps) + r.rest
    decreases |s|, 3
  {
    hide ReadMembers, MembersDenote, Blank, Spread, PutAll, NonSpace;
    NoMembers();
    var c, tail, gap := Punctuation(s);
    if c == '}' {
      ts, gaps := [], [gap];
      SpreadOne("}", gap);
      assert [] + ["}"] == ["}"] && "}" == [c];
      assert gap + ([c] + tail) == gap + [c] + tail;
    } else {
      var l;
      ts, gaps, l := MembersUnread(s, []);
    }
  }

  /** Key and colon at the front of a member. */
  lemma {:induction false} KeyUnread(s: string) returns (key: string, before: string, gap: string, tail: string)
    requires NonSpace(s).Ok? && NonSpace(s).value == '"' && ReadToken(NonSpace(s).rest).Ok?
    requires var colon := NonSpace(ReadToken(NonSpace(s).rest).rest); colon.Ok? && colon.value == ':'
    ensures key == ReadToken(NonSpace(s).rest).value && IsToken(key) && Blank(before) && Blank(gap)
    ensures NonSpace(ReadToken(NonSpace(s).rest).rest).rest == tail
    ensures s == before + ("\"" + key + "\"" + (gap + (":" + tail)))
  {
    hide ReadToken, NonSpace;
    var quote, r;
    quote, r, before := Punctuation(s);
    TokenSplit(r);
    ReadIsToken(r);
    key := ReadToken(r).value;
    var c;
    c, tail, gap := Punctuation(ReadToken(r).rest);
    assert "\"" + (key + "\"" + (gap + (":" + tail))) == "\"" + key + "\"" + (gap + (":" + tail));
  }

  lemma {:induction false} MembersUnread(s: string, done: seq<Member>) returns (ts: seq<string>, gaps: seq<string>, l: seq<Member>)
    requires NonSpace(s).Ok? && ReadMembers(NonSpace(s).value, NonSpace(s).rest, done).Ok?
    ensures var r := ReadMembers(NonSpace(s).value, NonSpace(s).rest, done);
      && r.value == Object(PutAll(done, l)) && l != [] && MembersDenote(ts, l)
      && |gaps| == |ts| + 1 && AllBlank(gaps) && s == Spread(ts + ["}"], gaps) + r.rest
    decreases |s|, 2
  {
    hide Read, ReadToken, Denotes, Blank, Spread, NonSpace, Put;
    var rest := ReadMembers(NonSpace(s).value, NonSpace(s).rest, done).rest;
    var key, before, gap, text := KeyUnread(s);
    var first, spaces := Unread(text);
    FirstToken(first, Read(text).value);
    var v := Read(text).value;
    var c, tail, gap2 := Punctuation(Read(text).rest);
    var head, headGaps := ["\"" + key + "\"", ":"] + first, [before, gap] + spaces;
    HeadSpread("\"" + key + "\"", before, gap, first, spaces, gap2 + ([c] + tail));
    assert head[2..] == first;
    if c == '}' {
      ts, gaps, l := head, headGaps + [gap2], [Member(key, v)];
      assert ts[2..|ts|] == first;
      assert MemberAt(ts, l, |ts|);
      SpreadThen(head, headGaps, [c], gap2, [], [], tail);
      assert head + [[c]] + [] == ts + ["}"] && headGaps + [gap2] + [] == gaps;
      NothingSpread();
      assert [] + tail == tail;
      assert l[1..] == [];
    } else {
      var more, others, m := MembersUnread(tail, Put(done, key, v));
      ts, gaps, l := head + [","] + more, headGaps + [gap2] + others, [Member(key, v)] + m;
      assert ts[2..|head|] == first && ts[|head| + 1..] == more && l[1..] == m;
      assert MemberAt(ts, l, |head|);
      SpreadThen(head, headGaps, [c], gap2, more + ["}"], others, rest);
      assert head + [[c]] + (more + ["}"]) == ts + ["}"];
    }
  }

  lemma {:induction false} HeadSpread(key: string, before: string, gap: string, first: seq<string>, spaces: seq<string>, rest: string)
    requires |spaces| == |first|
    ensures Spread([key, ":"] + first, [before, gap] + spaces) + rest == before + (key + (gap + (":" + (Spread(first, spaces) + rest))))
  {
    hide Spread;
    var ts, gaps := [key, ":"] + first, [before, gap] + spaces;
    FirstOf(ts, gaps, rest);
    FirstOf(ts[1..], gaps[1..], rest);
    assert ts[1..][1..] == first && gaps[1..][1..] == spaces;
  }

  /** A text is read as a value exactly when it is the value's tokens with only white space before each. */
  lemma {:induction false} ReadIff(s: string, v: Value, rest: string)
    ensures Read(s) == Ok(v, rest) <==> exists ts, gaps :: WrittenAs(ts, gaps, s, v, rest)
  {
    hide Read, Denotes, Spread;
    if Read(s) == Ok(v, rest) {
      var ts, gaps := Unread(s);
      assert WrittenAs(ts, gaps, s, v, rest);
    }
    if ts, gaps :| WrittenAs(ts, gaps, s, v, rest) {
      SpreadIsRead(ts, gaps, v, rest);
    }
  }

  // ---- the tokens of a printed value ----

  function Tokens(v: Value): seq<string>
    requires Exact(v)
  {
    match v
    case Array(items) => ["["] + TokensOfItems(items) + ["]"]
    case Object(members) => ["{"] + TokensOfMembers(members) + ["}"]
    case Bool(b) => [if b then "true" else "false"]
    case Nil => ["null"]
    case Integer(n) => [PrintInt(n)]
    case String(text) => ["\"" + text + "\""]
  }

  function TokensOfItems(items: seq<Value>): seq<string>
    requires forall i :: 0 <= i < |items| ==> Exact(items[i])
  {
    if items == [] then []
    else if |items| == 1 then Tokens(items[0])
    else Tokens(items[0]) + [","] + TokensOfItems(items[1..])
  }

  function TokensOfMember(m: Member): seq<string>
    requires Exact(m.value)
  {
    ["\"" + m.key + "\"", ":"] + Tokens(m.value)
  }

  function TokensOfMembers(members: seq<Member>): seq<string>
    requires forall i :: 0 <= i < |members| ==> Exact(members[i].value)
  {
    if members == [] then []
    else if |members| == 1 then TokensOfMember(members[0])
    else TokensOfMember(members[0]) + [","] + TokensOfMembers(members[1..])
  }

  /** Tokens written one after the other. */
  function Joined(ts: seq<string>): string {
    if ts == [] then [] else ts[0] + Joined(ts[1..])
  }

  lemma {:induction false} JoinedAppend(a: seq<string>, b: seq<string>)
    ensures Joined(a + b) == Joined(a) + Joined(b)
  {
    if a == [] {
      assert a + b == b;
    } else {
      assert (a + b)[1..] == a[1..] + b;
      JoinedAppend(a[1..], b);
    }
  }

  lemma {:induction false} JoinedOne(t: string)
    ensures Joined([t]) == t
  {
    assert [t][1..] == [];
  }

  /** The printer writes the tokens with nothing between them. */
  lemma {:induction false} PrintJoins(v: Value)
    requires Exact(v)
    ensures Print(v) == Joined(Tokens(v))
    decreases v, 2
  {
    hide PrintItems, PrintMembers, TokensOfItems, TokensOfMembers, Joined, PrintInt;
    var text := Print(v);
    match v
    case Array(items) =>
      PrintItemsJoins(items);
      JoinedAround("[", TokensOfItems(items), "]");
    case Object(members) =>
      PrintMembersJoins(members);
      JoinedAround("{", TokensOfMembers(members), "}");
    case _ => JoinedOne(text);
  }

  lemma {:induction false} JoinedAround(open: string, ts: seq<string>, close: string)
    ensures Joined([open] + ts + [close]) == open + Joined(ts) + close
  {
    JoinedAppend([open] + ts, [close]);
    JoinedAppend([open], ts);
    JoinedOne(open);
    JoinedOne(close);
  }

  lemma {:induction false} JoinedList(first: seq<string>, more: seq<string>)
    ensures Joined(first + [","] + more) == Joined(first) + "," + Joined(more)
  {
    JoinedAppend(first + [","], more);
    JoinedAppend(first, [","]);
    JoinedOne(",");
  }

  lemma {:induction false} PrintItemsJoins(items: seq<Value>)
    requires forall i :: 0 <= i < |items| ==> Exact(items[i])
    ensures PrintItems(items) == Joined(TokensOfItems(items))
    decreases items, 1
  {
    hide Print, Tokens;
    if items != [] {
      PrintJoins(items[0]);
      if |items| > 1 {
        hide Joined;
        PrintItemsJoins(items[1..]);
        JoinedList(Tokens(items[0]), TokensOfItems(items[1..]));
      }
    }
  }

  lemma {:induction false} PrintMemberJoins(m: Member)
    requires Exact(m.value) && Print(m.value) == Joined(Tokens(m.value))
    ensures PrintMember(m) == Joined(TokensOfMember(m))
  {
    hide Print, Tokens, Joined;
    var key := "\"" + m.key + "\"";
    JoinedAppend([key, ":"], Tokens(m.value));
    JoinedAppend([key], [":"]);
    JoinedOne(key);
    JoinedOne(":");
    assert [key] + [":"] == [key, ":"];
    assert key + ":" == "\"" + m.key + "\":";
  }

  lemma {:induction false} PrintMembersJoins(members: seq<Member>)
    requires forall i :: 0 <= i < |members| ==> Exact(members[i].value)
    ensures PrintMembers(members) == Joined(TokensOfMembers(members))
    decreases members, 1
  {
    hide Print, PrintMember, Tokens, TokensOfMember;
    if members != [] {
      PrintJoins(members[0].value);
      PrintMemberJoins(members[0]);
      if |members| > 1 {
        hide Joined;
        PrintMembersJoins(members[1..]);
        JoinedList(TokensOfMember(members[0]), TokensOfMembers(members[1..]));
      }
    }
  }

  lemma {:induction false} TokensDenote(v: Value)
    requires Exact(v) && WellFormed(v)
    ensures Denotes(Tokens(v), v)
    decreases v, 2
  {
    hide TokensOfItems, TokensOfMembers, ItemsDenote, MembersDenote, IntOf, PrintInt, PutAll, Ascending;
    var ts := Tokens(v);
    match v
    case Array(items) =>
      ItemTokensDenote(items);
      assert ts[1..|ts| - 1] == TokensOfItems(items);
    case Object(members) =>
      MemberTokensDenote(members);
      assert [] + members == members;
      PutAllInOrder([], members);
      assert ts[1..|ts| - 1] == TokensOfMembers(members);
    case Integer(n) =>
      PrintIntShape(n);
      IntOfPrint(n);
    case _ =>
  }

  lemma {:induction false} ItemTokensDenote(items: seq<Value>)
    requires forall i :: 0 <= i < |items| ==> Exact(items[i]) && WellFormed(items[i])
    ensures ItemsDenote(TokensOfItems(items), items)
    decreases items, 1
  {
    hide Tokens, Denotes, Exact, WellFormed;
    if items != [] {
      var ts, first := TokensOfItems(items), Tokens(items[0]);
      TokensDenote(items[0]);
      FirstToken(first, items[0]);
      if |items| > 1 {
        ItemTokensDenote(items[1..]);
        assert ts[|first| + 1..] == TokensOfItems(items[1..]);
      }
      assert ts[..|first|] == first;
      assert ItemAt(ts, items, |first|);
    }
  }

  lemma {:induction false} MemberTokens(members: seq<Member>)
    requires forall i :: 0 <= i < |members| ==> Exact(members[i].value)
    ensures TokensOfMembers(members) ==
      if members == [] then []
      else ["\"" + members[0].key + "\"", ":"] + Tokens(members[0].value) +
           if |members| == 1 then [] else [","] + TokensOfMembers(members[1..])
  {
    hide Tokens;
  }

  lemma {:induction false} MemberTokensDenote(members: seq<Member>)
    requires forall i :: 0 <= i < |members| ==> Exact(members[i].value) && WellFormed(members[i].value) && IsToken(members[i].key)
    ensures MembersDenote(TokensOfMembers(members), members)
    decreases members, 1
  {
    hide Tokens, TokensOfMembers, Denotes, IsToken, Exact, WellFormed;
    MemberTokens(members);
    if members != [] {
      var ts, first := TokensOfMembers(members), Tokens(members[0].value);
      TokensDenote(members[0].value);
      FirstToken(first, members[0].value);
      if |members| > 1 {
        MemberTokensDenote(members[1..]);
        assert ts[|first| + 3..] == TokensOfMembers(members[1..]);
      }
      assert ts[2..|first| + 2] == first;
      assert MemberAt(ts, members, |first| + 2);
    }
  }

  /** Members with ascending keys stay as they are. */
  lemma {:induction false} PutAllInOrder(done: seq<Member>, l: seq<Member>)
    requires Ascending(done + l)
    ensures PutAll(done, l) == done + l
    decreases |l|
  {
    if l == [] {
      assert done + l == done;
    } else {
      hide Less, Put;
      var m := l[0];
      forall i | 0 <= i < |done|
        ensures Less(done[i].key, m.key)
      {
        assert (done + l)[i] == done[i] && (done + l)[|done|] == m;
      }
      PutAtEnd(done, m.key, m.value);
      assert done + [Member(m.key, m.value)] + l[1..] == done + l;
      PutAllInOrder(done + [m], l[1..]);
    }
  }

  /** A printed value with white space of any kind put in front of its tokens reads back as the value. */
  lemma {:induction false} SpacedPrintIsRead(v: Value, gaps: seq<string>, rest: string)
    requires Exact(v) && WellFormed(v) && |gaps| == |Tokens(v)| && AllBlank(gaps)
    requires v.Integer? ==> rest == [] || !InNumber(rest[0])
    ensures Read(Spread(Tokens(v), gaps) + rest) == Ok(v, rest)
    ensures Joined(Tokens(v)) == Print(v)
  {
    hide Read, Tokens, Denotes, Spread, Print;
    PrintJoins(v);
    TokensDenote(v);
    SpreadIsRead(Tokens(v), gaps, v, rest);
  }

  // ---- characters, strings and numbers, without recursion from the reader ----

  const DIGITS := "0123456789"

  lemma {:induction false} DigitIs(c: char)
    ensures IsDigit(c) <==> c in DIGITS
    ensures IsDigit(c) ==> DIGITS[c as int - '0' as int] == c
    ensures InNumber(c) <==> c in DIGITS || c == '.'
  {
    assert DIGITS == ['0', '1', '2', '3', '4', '5', '6', '7', '8', '9'];
    if IsDigit(c) {
      var n := c as int - '0' as int;
      assert n == 0 || n == 1 || n == 2 || n == 3 || n == 4 || n == 5 || n == 6 || n == 7 || n == 8 || n == 9;
      assert c == (n + '0' as int) as char;
    }
  }

  /** The backslashes at the end. */
  function Slashes(t: string): nat {
    if t == [] || t[|t| - 1] != '\\' then 0 else 1 + Slashes(t[..|t| - 1])
  }

  lemma {:induction false} SlashesFromFront(t: string)
    requires t != []
    ensures t[0] != '\\' ==> Slashes(t) == Slashes(t[1..])
    ensures t[0] == '\\' && |t| >= 2 ==> Slashes(t) % 2 == Slashes(t[2..]) % 2
  {
    if |t| > 1 && t[|t| - 1] == '\\' {
      var u := t[..|t| - 1];
      SlashesFromFront(u);
      assert t[1..][..|t| - 2] == u[1..];
      if |t| > 2 { assert t[2..][..|t| - 3] == u[2..]; }
    }
  }

  /** Every quote inside is behind an odd number of backslashes, and an even number stands at the end. */
  lemma {:induction false} TokenIff(t: string)
    ensures IsToken(t) <==> Slashes(t) % 2 == 0 && forall i :: 0 <= i < |t| && t[i] == '"' ==> Slashes(t[..i]) % 2 == 1
  {
    hide Slashes;
    assert Slashes([]) == 0 by { NoSlashes(); }
    if t != [] {
      SlashesFromFront(t);
      if t[0] == '"' {
        assert t[..0] == [];
      } else if t[0] == '\\' && |t| == 1 {
        OneSlash();
        assert t == "\\";
      } else {
        var k := if t[0] == '\\' then 2 else 1;
        var u := t[k..];
        TokenIff(u);
        forall i | k <= i < |t|
          ensures t[i] == u[i - k] && Slashes(t[..i]) % 2 == Slashes(u[..i - k]) % 2
        {
          SlashesFromFront(t[..i]);
          assert t[..i][k..] == u[..i - k];
        }
        if k == 2 {
          OneSlash();
          assert t[..1] == "\\";
        }
        forall j | 0 <= j < |u|
          ensures t[j + k] == u[j] && Slashes(t[..j + k]) % 2 == Slashes(u[..j]) % 2
        {
        }
      }
    }
  }

  lemma {:induction false} NoSlashes()
    ensures Slashes([]) == 0
  {
  }

  lemma {:induction false} OneSlash()
    ensures Slashes("\\") == 1
  {
    assert "\\"[..0] == [];
  }

  function TenTo(k: nat): nat {
    if k == 0 then 1 else 10 * TenTo(k - 1)
  }

  /** Each digit counts for its place. */
  function Decimal(s: string): int
    requires forall i :: 0 <= i < |s| ==> IsDigit(s[i])
  {
    if s == [] then 0 else assert IsDigit(s[0]); (s[0] as int - '0' as int) * TenTo(|s| - 1) + Decimal(s[1..])
  }

  lemma {:induction false} DecimalAppend(s: string, c: char)
    requires (forall i :: 0 <= i < |s| ==> IsDigit(s[i])) && IsDigit(c)
    ensures Decimal(s + [c]) == Decimal(s) * 10 + (c as int - '0' as int)
  {
    if s == [] {
      assert s + [c] == [c] && [c][1..] == [];
    } else {
      assert (s + [c])[1..] == s[1..] + [c];
      DecimalAppend(s[1..], c);
      var d := s[0] as int - '0' as int;
      assert d * TenTo(|s|) == d * TenTo(|s| - 1) * 10;
    }
  }

  lemma {:induction false} NatOfIs(s: string)
    requires forall i :: 0 <= i < |s| ==> IsDigit(s[i])
    ensures NatOf(s) == Decimal(s)
  {
    hide Decimal;
    if s == [] {
      NothingDecimal();
    } else {
      var u, c := s[..|s| - 1], s[|s| - 1];
      assert IsDigit(c);
      NatOfIs(u);
      DecimalAppend(u, c);
      assert s == u + [c];
    }
  }

  lemma {:induction false} NothingDecimal()
    ensures Decimal([]) == 0
  {
  }

  /** The value of an integer's text, at most the bounds of a signed 64-bit number. */
  lemma {:induction false} IntTextMeans(text: string)
    requires IsIntText(text)
    ensures var n: int := if text[0] == '-' then 0 - Decimal(text[1..]) else Decimal(text);
      IntOf(text) == if n < -9223372036854775808 then -9223372036854775808 else if n > 9223372036854775807 then 9223372036854775807 else n
  {
    hide NatOf, Decimal;
    NatOfIs(text[1..]);
    if text[0] != '-' { NatOfIs(text); }
  }

  /** Equal up to k, where the first ends or has the smaller character. */
  ghost predicate SmallerFrom(a: string, b: string, k: nat) {
    k <= |a| && k < |b| && a[..k] == b[..k] && (k == |a| || a[k] < b[k])
  }

  lemma {:induction false} SameFront(a: string, b: string, k: nat)
    requires SmallerFrom(a, b, k)
    ensures k == 0 || (a != [] && b != [] && a[0] == b[0])
  {
    if k > 0 { assert a[0] == a[..k][0] && b[0] == b[..k][0]; }
  }

  lemma {:induction false} LessIff(a: string, b: string)
    ensures Less(a, b) <==> exists k :: SmallerFrom(a, b, k)
  {
    if a == [] || b == [] || a[0] != b[0] {
      if Less(a, b) {
        assert SmallerFrom(a, b, 0);
      }
      if k: nat :| SmallerFrom(a, b, k) {
        SameFront(a, b, k);
      }
    } else {
      var a', b' := a[1..], b[1..];
      LessIff(a', b');
      if Less(a, b) {
        var k: nat :| SmallerFrom(a', b', k);
        assert a[..k + 1] == [a[0]] + a'[..k] && b[..k + 1] == [b[0]] + b'[..k];
        assert SmallerFrom(a, b, k + 1);
      }
      if k: nat :| SmallerFrom(a, b, k) {
        assert a'[..k - 1] == a[..k][1..] && b'[..k - 1] == b[..k][1..];
        assert SmallerFrom(a', b', k - 1);
      }
    }
  }
}
