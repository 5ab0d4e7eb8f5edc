/** Hashing JSON without insignificant whitespace: the byte loop drops exactly what lies between the tokens
    of section 2 of RFC 8259, and what it keeps determines the tokens. */
module Canonical {
  import opened Octets

  const QUOTE: byte := 0x22
  const BACKSLASH: byte := 0x5C

  predicate Space(b: byte) { b in {0x20, 0x09, 0x0A, 0x0D} }

  /** [ ] { } : , */
  predicate Structural(b: byte) { b in {0x5B, 0x5D, 0x7B, 0x7D, 0x3A, 0x2C} }

  /** A byte that can be part of a number or a literal name. */
  predicate WordByte(b: byte) {
    !Space(b) && !Structural(b) && b != QUOTE
  }

  // ---------- The program ----------

  datatype Mode = Plain | Quoted | Escaped

  function After(m: Mode, b: byte): Mode {
    match m
    case Plain => if b == QUOTE then Quoted else Plain
    case Quoted => if b == BACKSLASH then Escaped else if b == QUOTE then Plain else Quoted
    case Escaped => Quoted
  }

  /** The bytes hashed for an input read from mode m. */
  function Strip(m: Mode, input: seq<byte>): seq<byte>
    decreases |input|
  {
    if input == [] then [] else
    (if m == Plain && Space(input[0]) then [] else [input[0]]) + Strip(After(m, input[0]), input[1..])
  }

  lemma StripByte(m: Mode, input: seq<byte>, i: nat)
    requires i < |input|
    ensures Strip(m, input[i..]) ==
      (if m == Plain && Space(input[i]) then [] else [input[i]]) + Strip(After(m, input[i]), input[i + 1..])
  {
    assert input[i..][1..] == input[i + 1..];
  }

  lemma StripEnds(input: seq<byte>)
    ensures input[0..] == input && input[|input|..] == [] && forall m :: Strip(m, []) == []
  {
  }

  /** The byte loop; the hasher is the sequence of bytes it was given. */
  method ConfigBytes(input: seq<byte>) returns (hashed: seq<byte>)
    ensures hashed == Strip(Plain, input)
  {
    hide Strip;
    StripEnds(input);
    hashed := [];
    var quoted, escaped := false, false;
    ghost var m := Plain;
    for i := 0 to |input|
      invariant m == if escaped then Escaped else if quoted then Quoted else Plain
      invariant escaped ==> quoted
      invariant hashed + Strip(m, input[i..]) == Strip(Plain, input)
    {
      var b := input[i];
      StripByte(m, input, i);
      m := After(m, b);
      if quoted {
        hashed := hashed + [b];
        if escaped {
          escaped := false;
        } else if b == BACKSLASH {
          escaped := true;
        } else if b == QUOTE {
          quoted := false;
        }
      } else if b == QUOTE {
        quoted := true;
        hashed := hashed + [b];
      } else if !Space(b) {
        hashed := hashed + [b];
      }
    }
  }

  // ---------- Tokens and documents ----------

  datatype Token = Punct(b: byte) | Str(body: seq<byte>) | Word(text: seq<byte>)

  function Spell(t: Token): seq<byte> {
    match t
    case Punct(b) => [b]
    case Str(body) => [QUOTE] + body + [QUOTE]
    case Word(text) => text
  }

  predicate Digit(b: byte) { 0x30 <= b <= 0x39 }

  predicate Hex(b: byte) { Digit(b) || 0x41 <= b <= 0x46 || 0x61 <= b <= 0x66 }

  /** The inside of a string: characters that need no escape, and the escapes of section 7. */
  predicate StringBody(s: seq<byte>) {
    if s == [] then true
    else if s[0] == BACKSLASH then
      && |s| >= 2
      && (if s[1] == 0x75 then
            |s| >= 6 && Hex(s[2]) && Hex(s[3]) && Hex(s[4]) && Hex(s[5]) && StringBody(s[6..])
          else s[1] in {0x22, 0x5C, 0x2F, 0x62, 0x66, 0x6E, 0x72, 0x74} && StringBody(s[2..]))
    else s[0] != QUOTE && s[0] >= 0x20 && StringBody(s[1..])
  }

  predicate Digits(s: seq<byte>) {
    s != [] && forall i :: 0 <= i < |s| ==> Digit(s[i])
  }

  /** int, frac and exp of section 6. */
  predicate IntPart(s: seq<byte>) {
    Digits(s) && (|s| > 1 ==> s[0] != 0x30)
  }

  predicate FracPart(s: seq<byte>) {
    s == [] || (s[0] == 0x2E && Digits(s[1..]))
  }

  predicate ExpPart(s: seq<byte>) {
    s == [] || (s[0] in {0x65, 0x45} && (Digits(s[1..]) || (|s| > 1 && s[1] in {0x2B, 0x2D} && Digits(s[2..]))))
  }

  predicate Number(s: seq<byte>) {
    exists i, j | 0 <= i <= j <= |s| ::
      SignedInt(s[..i]) && FracPart(s[i..j]) && ExpPart(s[j..])
  }

  predicate SignedInt(s: seq<byte>) {
    IntPart(s) || (s != [] && s[0] == 0x2D && IntPart(s[1..]))
  }

  const TRUE: seq<byte> := [0x74, 0x72, 0x75, 0x65]
  const FALSE: seq<byte> := [0x66, 0x61, 0x6C, 0x73, 0x65]
  const NULL: seq<byte> := [0x6E, 0x75, 0x6C, 0x6C]

  /** The JSON grammar over tokens. */
  datatype Value =
    | Scalar(text: seq<byte>)
    | Text(body: seq<byte>)
    | Array(items: seq<Value>)
    | Object(members: seq<Member>)

  datatype Member = Member(name: seq<byte>, value: Value)

  predicate Proper(v: Value) {
    match v
    case Scalar(text) => text == TRUE || text == FALSE || text == NULL || Number(text)
    case Text(body) => StringBody(body)
    case Array(items) => forall i :: 0 <= i < |items| ==> Proper(items[i])
    case Object(members) => forall i :: 0 <= i < |members| ==> StringBody(members[i].name) && Proper(members[i].value)
  }

  function Tokens(v: Value): seq<Token> {
    match v
    case Scalar(text) => [Word(text)]
    case Text(body) => [Str(body)]
    case Array(items) => [Punct(0x5B)] + ItemTokens(items) + [Punct(0x5D)]
    case Object(members) => [Punct(0x7B)] + MemberTokens(members) + [Punct(0x7D)]
  }

  /** The items with commas between them. */
  function ItemTokens(items: seq<Value>): seq<Token> {
    if items == [] then []
    else if |items| == 1 then Tokens(items[0])
    else Tokens(items[0]) + [Punct(0x2C)] + ItemTokens(items[1..])
  }

  function MemberTokens(members: seq<Member>): seq<Token> {
    if members == [] then []
    else
      var first := [Str(members[0].name), Punct(0x3A)] + Tokens(members[0].value);
      if |members| == 1 then first else first + [Punct(0x2C)] + MemberTokens(members[1..])
  }

  predicate Blank(s: seq<byte>) {
    forall i :: 0 <= i < |s| ==> Space(s[i])
  }

  /** Whitespace before every token and after the last. */
  function Layout(ts: seq<Token>, gaps: seq<seq<byte>>): seq<byte>
    requires |gaps| == |ts| + 1
  {
    if ts == [] then gaps[0] else gaps[0] + Spell(ts[0]) + Layout(ts[1..], gaps[1..])
  }

  /** The document spells the value, with any whitespace between its tokens. */
  ghost predicate Spells(doc: seq<byte>, v: Value) {
    Proper(v) && exists gaps: seq<seq<byte>> ::
      |gaps| == |Tokens(v)| + 1 && (forall i :: 0 <= i < |gaps| ==> Blank(gaps[i])) && doc == Layout(Tokens(v), gaps)
  }

  function Concat(ts: seq<Token>): seq<byte> {
    if ts == [] then [] else Spell(ts[0]) + Concat(ts[1..])
  }

  // ---------- Token sequences of documents ----------

  predicate Lexical(t: Token) {
    match t
    case Punct(b) => Structural(b)
    case Str(body) => StringBody(body)
    case Word(text) => text != [] && forall i :: 0 <= i < |text| ==> WordByte(text[i])
  }

  /** Every token is lexical and no two words touch. */
  predicate Separated(ts: seq<Token>) {
    && (forall i :: 0 <= i < |ts| ==> Lexical(ts[i]))
    && (forall i :: 0 <= i < |ts| - 1 ==> !(ts[i].Word? && ts[i + 1].Word?))
  }

  predicate Wordy(s: seq<byte>) {
    forall i :: 0 <= i < |s| ==> WordByte(s[i])
  }

  lemma WordyJoin(a: seq<byte>, b: seq<byte>)
    requires Wordy(a) && Wordy(b)
    ensures Wordy(a + b)
  {
  }

  lemma SignedWordy(s: seq<byte>)
    requires SignedInt(s)
    ensures Wordy(s) && s != []
  {
    if !IntPart(s) { WordyJoin([s[0]], s[1..]); assert s == [s[0]] + s[1..]; }
  }

  lemma FracWordy(s: seq<byte>)
    requires FracPart(s)
    ensures Wordy(s)
  {
    if s != [] { WordyJoin([s[0]], s[1..]); assert s == [s[0]] + s[1..]; }
  }

  lemma ExpWordy(s: seq<byte>)
    requires ExpPart(s)
    ensures Wordy(s)
  {
    if s != [] {
      if Digits(s[1..]) {
        WordyJoin([s[0]], s[1..]);
        assert s == [s[0]] + s[1..];
      } else {
        WordyJoin([s[0], s[1]], s[2..]);
        assert s == [s[0], s[1]] + s[2..];
      }
    }
  }

  lemma ScalarIsWord(text: seq<byte>)
    requires Proper(Scalar(text))
    ensures Lexical(Word(text))
  {
    hide SignedInt, FracPart, ExpPart;
    if Number(text) {
      var i, j :| 0 <= i <= j <= |text| && SignedInt(text[..i]) && FracPart(text[i..j]) && ExpPart(text[j..]);
      SignedWordy(text[..i]);
      FracWordy(text[i..j]);
      ExpWordy(text[j..]);
      WordyJoin(text[..i], text[i..j]);
      WordyJoin(text[..i] + text[i..j], text[j..]);
      assert text == text[..i] + text[i..j] + text[j..];
      assert Wordy(text);
    }
  }

  /** Token sequences that begin and end without a word join freely with punctuation. */
  lemma JoinSeparated(a: seq<Token>, p: Token, b: seq<Token>)
    requires Separated(a) && Separated(b) && p.Punct? && Structural(p.b)
    ensures Separated(a + [p] + b)
  {
    var ts := a + [p] + b;
    forall i | 0 <= i < |ts| ensures Lexical(ts[i]) {
      if i < |a| { assert ts[i] == a[i]; } else if i > |a| { assert ts[i] == b[i - |a| - 1]; }
    }
    forall i | 0 <= i < |ts| - 1 ensures !(ts[i].Word? && ts[i + 1].Word?) {
      if i + 1 < |a| { assert ts[i] == a[i] && ts[i + 1] == a[i + 1]; }
      else if i > |a| { assert ts[i] == b[i - |a| - 1] && ts[i + 1] == b[i - |a|]; }
    }
  }

  /** The grammar always puts punctuation between two words. */
  lemma {:induction false} TokensSeparated(v: Value)
    requires Proper(v)
    ensures Separated(Tokens(v))
    decreases v, 1
  {
    match v
    case Scalar(text) => ScalarIsWord(text);
    case Text(_) =>
    case Array(items) =>
      ItemsSeparated(items);
      JoinSeparated([], Punct(0x5B), ItemTokens(items));
      JoinSeparated([Punct(0x5B)] + ItemTokens(items), Punct(0x5D), []);
      assert [] + [Punct(0x5B)] + ItemTokens(items) == [Punct(0x5B)] + ItemTokens(items);
      assert Tokens(v) + [] == Tokens(v);
    case Object(members) =>
      MembersSeparated(members);
      JoinSeparated([], Punct(0x7B), MemberTokens(members));
      JoinSeparated([Punct(0x7B)] + MemberTokens(members), Punct(0x7D), []);
      assert [] + [Punct(0x7B)] + MemberTokens(members) == [Punct(0x7B)] + MemberTokens(members);
      assert Tokens(v) + [] == Tokens(v);
  }

  lemma {:induction false} ItemsSeparated(items: seq<Value>)
    requires forall i :: 0 <= i < |items| ==> Proper(items[i])
    ensures Separated(ItemTokens(items))
    decreases items, 0
  {
    if items != [] {
      TokensSeparated(items[0]);
      ItemsSeparated(items[1..]);
      if |items| > 1 { JoinSeparated(Tokens(items[0]), Punct(0x2C), ItemTokens(items[1..])); }
    }
  }

  lemma {:induction false} MembersSeparated(members: seq<Member>)
    requires forall i :: 0 <= i < |members| ==> StringBody(members[i].name) && Proper(members[i].value)
    ensures Separated(MemberTokens(members))
    decreases members, 0
  {
    if members != [] {
      var name, value := [Str(members[0].name)], Tokens(members[0].value);
      TokensSeparated(members[0].value);
      JoinSeparated(name, Punct(0x3A), value);
      assert name + [Punct(0x3A)] + value == [Str(members[0].name), Punct(0x3A)] + value;
      MembersSeparated(members[1..]);
      if |members| > 1 {
        JoinSeparated([Str(members[0].name), Punct(0x3A)] + value, Punct(0x2C), MemberTokens(members[1..]));
      }
    }
  }

  // ---------- Stripping is token-exact ----------

  lemma {:induction false} StripBlank(s: seq<byte>, rest: seq<byte>)
    requires Blank(s)
    ensures Strip(Plain, s + rest) == Strip(Plain, rest)
  {
    if s == [] {
      assert s + rest == rest;
    } else {
      assert (s + rest)[1..] == s[1..] + rest;
      StripBlank(s[1..], rest);
    }
  }

  lemma {:induction false} StripWord(s: seq<byte>, rest: seq<byte>)
    requires forall i :: 0 <= i < |s| ==> WordByte(s[i])
    ensures Strip(Plain, s + rest) == s + Strip(Plain, rest)
  {
    if s == [] {
      assert s + rest == rest;
    } else {
      assert (s + rest)[1..] == s[1..] + rest;
      StripWord(s[1..], rest);
      assert [s[0]] + (s[1..] + Strip(Plain, rest)) == s + Strip(Plain, rest);
    }
  }

  /** The mode after some bytes, all of which are read inside a string. */
  function Through(m: Mode, s: seq<byte>): Mode
    decreases |s|
  {
    if s == [] || m == Plain then m else Through(After(m, s[0]), s[1..])
  }

  lemma {:induction false} ThroughAppend(m: Mode, a: seq<byte>, b: seq<byte>)
    requires Through(m, a) != Plain
    ensures Through(m, a + b) == Through(Through(m, a), b)
    decreases |a|
  {
    if a == [] {
      assert a + b == b;
    } else {
      assert (a + b)[1..] == a[1..] + b;
      ThroughAppend(After(m, a[0]), a[1..], b);
    }
  }

  /** A string body never leaves the string. */
  lemma {:induction false} BodyStaysInside(body: seq<byte>)
    requires StringBody(body)
    ensures Through(Quoted, body) == Quoted
  {
    if body == [] {
    } else if body[0] == BACKSLASH {
      var head := if body[1] == 0x75 then 6 else 2;
      BodyStaysInside(body[head..]);
      EscapeStaysInside(body[..head]);
      ThroughAppend(Quoted, body[..head], body[head..]);
      assert body == body[..head] + body[head..];
    } else {
      BodyStaysInside(body[1..]);
    }
  }

  lemma EscapeStaysInside(e: seq<byte>)
    requires |e| >= 2 && e[0] == BACKSLASH && forall k :: 2 <= k < |e| ==> Hex(e[k])
    requires |e| == 2 || |e| == 6
    ensures Through(Quoted, e) == Quoted
  {
    assert Through(Quoted, e) == Through(Quoted, e[1..][1..]);
    HexStaysInside(e[1..][1..]);
  }

  lemma {:induction false} HexStaysInside(h: seq<byte>)
    requires forall k :: 0 <= k < |h| ==> Hex(h[k])
    ensures Through(Quoted, h) == Quoted
  {
    if h != [] { HexStaysInside(h[1..]); }
  }

  /** The length of a string body up to its closing quote. */
  function BodyLength(m: Mode, s: seq<byte>): nat
    decreases |s|
  {
    if s == [] || (m == Quoted && s[0] == QUOTE) then 0 else 1 + BodyLength(After(m, s[0]), s[1..])
  }

  /** Inside a string every byte is kept, and the string ends at its closing quote. */
  lemma {:induction false} StripInside(m: Mode, s: seq<byte>, rest: seq<byte>)
    requires m != Plain && Through(m, s) == Quoted
    ensures Strip(m, s + [QUOTE] + rest) == s + [QUOTE] + Strip(Plain, rest)
    ensures BodyLength(m, s + [QUOTE] + rest) == |s|
    decreases |s|
  {
    var all := s + [QUOTE] + rest;
    if s == [] {
      assert all[1..] == rest;
    } else {
      assert all[1..] == s[1..] + [QUOTE] + rest;
      StripInside(After(m, s[0]), s[1..], rest);
      assert [s[0]] + (s[1..] + [QUOTE] + Strip(Plain, rest)) == s + [QUOTE] + Strip(Plain, rest);
    }
  }

  lemma StripOpening(tail: seq<byte>)
    ensures Strip(Plain, [QUOTE] + tail) == [QUOTE] + Strip(Quoted, tail)
  {
    assert ([QUOTE] + tail)[1..] == tail;
  }

  lemma StringSplits(body: seq<byte>, rest: seq<byte>)
    ensures var s := Spell(Str(body)) + rest;
            && s == [QUOTE] + (body + [QUOTE] + rest)
            && s[0] == QUOTE && s[1..] == body + [QUOTE] + rest && s[1..|body| + 1] == body
  {
  }

  lemma StripString(body: seq<byte>, rest: seq<byte>)
    requires StringBody(body)
    ensures Strip(Plain, Spell(Str(body)) + rest) == Spell(Str(body)) + Strip(Plain, rest)
    ensures BodyLength(Quoted, body + [QUOTE] + rest) == |body|
  {
    BodyStaysInside(body);
    StripInside(Quoted, body, rest);
    StringSplits(body, rest);
    StripOpening(body + [QUOTE] + rest);
    StringSplits(body, Strip(Plain, rest));
  }

  lemma StripToken(t: Token, rest: seq<byte>)
    requires Lexical(t)
    ensures Strip(Plain, Spell(t) + rest) == Spell(t) + Strip(Plain, rest)
  {
    match t
    case Punct(b) => assert ([b] + rest)[1..] == rest;
    case Word(text) => StripWord(text, rest);
    case Str(body) => StripString(body, rest);
  }

  lemma {:induction false} StripLayout(ts: seq<Token>, gaps: seq<seq<byte>>)
    requires |gaps| == |ts| + 1
    requires forall i :: 0 <= i < |gaps| ==> Blank(gaps[i])
    requires forall i :: 0 <= i < |ts| ==> Lexical(ts[i])
    ensures Strip(Plain, Layout(ts, gaps)) == Concat(ts)
  {
    if ts == [] {
      StripBlank(gaps[0], []);
      assert gaps[0] + [] == gaps[0];
    } else {
      var tail := Layout(ts[1..], gaps[1..]);
      assert gaps[0] + Spell(ts[0]) + tail == gaps[0] + (Spell(ts[0]) + tail);
      StripBlank(gaps[0], Spell(ts[0]) + tail);
      StripToken(ts[0], tail);
      StripLayout(ts[1..], gaps[1..]);
    }
  }

  /** What is hashed for a valid document is the concatenation of its tokens, every token byte untouched. */
  lemma TokenExact(doc: seq<byte>, v: Value)
    requires Spells(doc, v)
    ensures Strip(Plain, doc) == Concat(Tokens(v))
  {
    var gaps: seq<seq<byte>> :|
      |gaps| == |Tokens(v)| + 1 && (forall i :: 0 <= i < |gaps| ==> Blank(gaps[i])) && doc == Layout(Tokens(v), gaps);
    TokensSeparated(v);
    StripLayout(Tokens(v), gaps);
  }

  /** Stripping twice is stripping once, for any bytes at all. */
  lemma {:induction false} Idempotent(m: Mode, s: seq<byte>)
    ensures Strip(m, Strip(m, s)) == Strip(m, s)
    decreases |s|
  {
    if s != [] {
      var rest := Strip(After(m, s[0]), s[1..]);
      Idempotent(After(m, s[0]), s[1..]);
      if m == Plain && Space(s[0]) {
        assert [] + rest == rest;
      } else {
        assert ([s[0]] + rest)[1..] == rest;
      }
    }
  }

  // ---------- The hashed bytes determine the tokens ----------

  function WordLength(s: seq<byte>): (n: nat)
    ensures n <= |s|
  {
    if s == [] || !WordByte(s[0]) then 0 else 1 + WordLength(s[1..])
  }

  lemma {:induction false} WordEnds(text: seq<byte>, rest: seq<byte>)
    requires forall i :: 0 <= i < |text| ==> WordByte(text[i])
    requires rest != [] ==> !WordByte(rest[0])
    ensures WordLength(text + rest) == |text|
  {
    if text == [] {
      assert text + rest == rest;
    } else {
      assert (text + rest)[1..] == text[1..] + rest;
      WordEnds(text[1..], rest);
    }
  }

  /** The first token, read off the bytes alone. */
  function FirstToken(s: seq<byte>): Token
    requires s != []
  {
    if Structural(s[0]) then Punct(s[0])
    else if s[0] == QUOTE then
      var n := BodyLength(Quoted, s[1..]);
      if n < |s| then Str(s[1..n + 1]) else Word([])
    else Word(s[..WordLength(s)])
  }

  lemma FirstTokenIs(ts: seq<Token>)
    requires Separated(ts) && ts != []
    ensures Concat(ts) != [] && FirstToken(Concat(ts)) == ts[0]
  {
    var rest, s := Concat(ts[1..]), Concat(ts);
    match ts[0]
    case Punct(_) =>
    case Str(body) =>
      StripString(body, rest);
      StringSplits(body, rest);
    case Word(text) =>
      if |ts| > 1 { StartsWithoutWord(ts[1], Concat(ts[1..][1..])); assert !ts[1].Word? by { assert ts[0].Word?; } }
      WordEnds(text, rest);
      assert s[0] == text[0] && s[..|text|] == text;
  }

  lemma StartsWithoutWord(t: Token, rest: seq<byte>)
    requires Lexical(t) && !t.Word?
    ensures !WordByte((Spell(t) + rest)[0])
  {
  }

  /** Two separated token sequences with the same bytes are the same. */
  lemma {:induction false} ConcatInjective(a: seq<Token>, b: seq<Token>)
    requires Separated(a) && Separated(b) && Concat(a) == Concat(b)
    ensures a == b
  {
    if a == [] || b == [] {
      if a != [] { FirstTokenIs(a); }
      if b != [] { FirstTokenIs(b); }
    } else {
      FirstTokenIs(a);
      FirstTokenIs(b);
      var n := |Spell(a[0])|;
      assert Concat(a)[n..] == Concat(a[1..]) && Concat(b)[n..] == Concat(b[1..]);
      SeparatedTail(a);
      SeparatedTail(b);
      ConcatInjective(a[1..], b[1..]);
    }
  }

  lemma SeparatedTail(ts: seq<Token>)
    requires Separated(ts) && ts != []
    ensures Separated(ts[1..])
  {
    forall i | 0 <= i < |ts[1..]| - 1 ensures !(ts[1..][i].Word? && ts[1..][i + 1].Word?) {
      assert ts[1..][i] == ts[i + 1] && ts[1..][i + 1] == ts[i + 1 + 1];
    }
  }

  /** Two valid documents are hashed alike exactly when their token sequences are equal. */
  lemma SameBytesSameTokens(doc1: seq<byte>, v1: Value, doc2: seq<byte>, v2: Value)
    requires Spells(doc1, v1) && Spells(doc2, v2)
    ensures Strip(Plain, doc1) == Strip(Plain, doc2) <==> Tokens(v1) == Tokens(v2)
  {
    TokenExact(doc1, v1);
    TokenExact(doc2, v2);
    TokensSeparated(v1);
    TokensSeparated(v2);
    if Concat(Tokens(v1)) == Concat(Tokens(v2)) { ConcatInjective(Tokens(v1), Tokens(v2)); }
  }
}
