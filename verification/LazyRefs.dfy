/** References in filters: an object id, or a name that is resolved later. */
module LazyRefs {
  import opened Objects

  predicate IsHex(c: char) {
    '0' <= c <= '9' || 'a' <= c <= 'f'
  }

  predicate AllHex(s: string) {
    forall c :: c in s ==> IsHex(c)
  }

  /** Forty hexadecimal digits. */
  predicate IsId(s: string) {
    |s| == 40 && AllHex(s)
  }

  function Zeroes(n: nat): (s: string)
    ensures |s| == n && AllHex(s)
  {
    seq(n, _ => '0')
  }

  const ZERO_ID: string := Zeroes(40)

  datatype LazyRef = Resolved(id: string) | Lazy(name: string)

  predicate Proper(r: LazyRef) {
    r.Resolved? ==> IsId(r.id)
  }

  function Print(r: LazyRef): string {
    if r.Resolved? then r.id else "\"" + r.name + "\""
  }

  // ------------------------------------------------------------------ JSON strings

  function HexValue(s: string): Option<nat> {
    if s == [] then Some(0)
    else
      var high, c := HexValue(Init(s)), Last(s);
      if high.None? then None
      else if '0' <= c <= '9' then Some(16 * high.value + c as nat - '0' as nat)
      else if 'a' <= c <= 'f' then Some(16 * high.value + 10 + c as nat - 'a' as nat)
      else if 'A' <= c <= 'F' then Some(16 * high.value + 10 + c as nat - 'A' as nat)
      else None
  }

  /** The four digits behind `\u` at the start of `s`. */
  function UnicodeValue(s: string): Option<nat> {
    if |s| < 6 || s[0] != '\\' || s[1] != 'u' then None else HexValue(s[2..6])
  }

  /** The escape sequence `s` starts with: the character it stands for and its length. Surrogates
      come in pairs. */
  function Escape(s: string): (r: Option<(char, nat)>)
    ensures r.Some? ==> 2 <= r.value.1 <= |s|
  {
    if |s| < 2 then None
    else if s[1] in "\"\\/" then Some((s[1], 2))
    else if s[1] == 'b' then Some(('\U{08}', 2))
    else if s[1] == 'f' then Some(('\U{0c}', 2))
    else if s[1] == 'n' then Some(('\n', 2))
    else if s[1] == 'r' then Some(('\r', 2))
    else if s[1] == 't' then Some(('\t', 2))
    else
      var v := UnicodeValue(s);
      if v.None? then None
      else if v.value < 0xD800 || 0xE000 <= v.value < 0x10000 then Some((v.value as char, 6))
      else
        var w := UnicodeValue(s[6..]);
        if w.None? || v.value >= 0xDC00 || w.value < 0xDC00 || w.value > 0xDFFF then None
        else Some(((0x10000 + 0x400 * (v.value - 0xD800) + w.value - 0xDC00) as char, 12))
  }

  /** What is left of a JSON string literal after its opening quote. */
  function JsonRest(s: string): Option<string> {
    if s == [] || s[0] < ' ' then None
    else if s[0] == '"' then (if |s| == 1 then Some("") else None)
    else if s[0] == '\\' then
      var e := Escape(s);
      if e.None? then None
      else
        var rest := JsonRest(s[e.value.1..]);
        if rest.None? then None else Some([e.value.0] + rest.value)
    else
      var rest := JsonRest(s[1..]);
      if rest.None? then None else Some([s[0]] + rest.value)
  }

  function JsonString(s: string): Option<string> {
    if s == [] || s[0] != '"' then None else JsonRest(s[1..])
  }

  /** How a character is written in a JSON string, unless it stands for itself. */
  function Escaped(c: char): string {
    if c == '"' then "\\\"" else if c == '\\' then "\\\\"
    else if c == '\U{08}' then "\\b" else if c == '\U{0c}' then "\\f"
    else if c == '\n' then "\\n" else if c == '\r' then "\\r" else if c == '\t' then "\\t"
    else if c < ' ' then "\\u00" + [HexDigit(c as nat / 16), HexDigit(c as nat % 16)]
    else [c]
  }

  function HexDigit(n: nat): char
    requires n < 16
  {
    "0123456789abcdef"[n]
  }

  function Quoted(s: string): string {
    if s == [] then "\"" else Escaped(s[0]) + Quoted(s[1..])
  }

  lemma HexPair(n: nat)
    requires n < 32
    ensures HexValue("00" + [HexDigit(n / 16), HexDigit(n % 16)]) == Some(n)
  {
    var a, b := HexDigit(n / 16), HexDigit(n % 16);
    var s := "00" + [a, b];
    assert Init(s) == "00" + [a] && Last(s) == b;
    assert Init("00" + [a]) == "00" && Last("00" + [a]) == a;
    assert Init("00") == "0" && Init("0") == "";
    assert HexValue("00") == Some(0);
  }

  predicate HasShortEscape(c: char) {
    c in "\"\\\n\r\t" || c == '\U{08}' || c == '\U{0c}'
  }

  lemma ShortReads(c: char, rest: string)
    requires HasShortEscape(c) && JsonRest(rest).Some?
    ensures JsonRest(Escaped(c) + rest) == Some([c] + JsonRest(rest).value)
  {
    hide UnicodeValue;
    assert (Escaped(c) + rest)[2..] == rest;
  }

  lemma ControlReads(c: char, rest: string)
    requires c < ' ' && !HasShortEscape(c) && JsonRest(rest).Some?
    ensures JsonRest(Escaped(c) + rest) == Some([c] + JsonRest(rest).value)
  {
    hide HexValue, HexDigit;
    var s := Escaped(c) + rest;
    HexPair(c as nat);
    assert s[2..6] == "00" + [HexDigit(c as nat / 16), HexDigit(c as nat % 16)];
    assert s[6..] == rest;
  }

  lemma EscapedReads(c: char, rest: string)
    requires JsonRest(rest).Some?
    ensures JsonRest(Escaped(c) + rest) == Some([c] + JsonRest(rest).value)
  {
    if HasShortEscape(c) {
      ShortReads(c, rest);
    } else if c < ' ' {
      ControlReads(c, rest);
    } else {
      assert ([c] + rest)[1..] == rest;
    }
  }

  /** Whatever is written as a JSON string is read back. */
  lemma {:induction false} QuotedReads(s: string)
    ensures JsonRest(Quoted(s)) == Some(s) && JsonString("\"" + Quoted(s)) == Some(s)
  {
    assert ("\"" + Quoted(s))[1..] == Quoted(s);
    if s == [] {
    } else {
      QuotedReads(s[1..]);
      EscapedReads(s[0], Quoted(s[1..]));
      assert s == [s[0]] + s[1..];
    }
  }

  /** Two surrogates stand for one character. */
  lemma SurrogatesRead(high: string, low: string, rest: string)
    requires |high| == |low| == 4 && HexValue(high).Some? && HexValue(low).Some? && JsonRest(rest).Some?
    requires 0xD800 <= HexValue(high).value < 0xDC00 <= HexValue(low).value < 0xE000
    ensures var code := 0x10000 + 0x400 * (HexValue(high).value - 0xD800) + (HexValue(low).value - 0xDC00);
      JsonRest("\\u" + high + "\\u" + low + rest) == Some([code as char] + JsonRest(rest).value)
  {
    var s := "\\u" + high + "\\u" + low + rest;
    assert s[2..6] == high && s[6..][2..6] == low && s[12..] == rest;
    assert s[0] == '\\' && s[1] == 'u' && s[6..][0] == '\\' && s[6..][1] == 'u';
  }

  // ------------------------------------------------------------------ parsing

  function Requote(s: string): (r: string)
    ensures |r| == |s| && forall i :: 0 <= i < |s| ==> r[i] == if s[i] == '\'' then '"' else s[i]
  {
    seq(|s|, i requires 0 <= i < |s| => if s[i] == '\'' then '"' else s[i])
  }

  function Lower(c: char): char {
    if 'A' <= c <= 'F' then (c as int - 'A' as int + 'a' as int) as char else c
  }

  /** Hexadecimal digits in lower case. */
  function Lowered(s: string): (r: string)
    ensures |r| == |s| && forall i :: 0 <= i < |s| ==> r[i] == Lower(s[i])
  {
    seq(|s|, i requires 0 <= i < |s| => Lower(s[i]))
  }

  /** Digits count in either case, and an abbreviated id is padded with zeroes. */
  function ParseId(s: string): Result<LazyRef> {
    if s == [] || |s| > 40 || !AllHex(Lowered(s)) then Err else Ok(Resolved(Lowered(s) + Zeroes(40 - |s|)))
  }

  /** What is read as an id is the number that its digits stand for, padded. */
  lemma IdsRead(s: string)
    requires 0 < |s| <= 40 && HexValue(s).Some?
    ensures ParseId(s).Ok? && IsId(ParseId(s).value.id) && HexValue(ParseId(s).value.id[..|s|]) == HexValue(s)
    ensures forall i :: |s| <= i < 40 ==> ParseId(s).value.id[i] == '0'
  {
    LoweredValue(s);
    var id := Lowered(s) + Zeroes(40 - |s|);
    assert id[..|s|] == Lowered(s);
    forall c | c in id ensures IsHex(c) {
      var i :| 0 <= i < |id| && id[i] == c;
      if i < |s| {
        assert Lowered(s)[i] in Lowered(s);
      } else {
        assert Zeroes(40 - |s|)[i - |s|] in Zeroes(40 - |s|);
      }
    }
  }

  lemma {:induction false} LoweredValue(s: string)
    requires HexValue(s).Some?
    ensures AllHex(Lowered(s)) && HexValue(Lowered(s)) == HexValue(s)
  {
    if s == [] {
    } else {
      LoweredValue(Init(s));
      assert Init(Lowered(s)) == Lowered(Init(s)) && Last(Lowered(s)) == Lower(Last(s));
      forall c | c in Lowered(s) ensures IsHex(c) {
        var i :| 0 <= i < |s| && Lowered(s)[i] == c;
        if i < |s| - 1 {
          assert Lowered(Init(s))[i] == c;
        }
      }
    }
  }

  function Parse(s: string): Result<LazyRef> {
    var q := Requote(s);
    var json := JsonString(q);
    if json.Some? then Ok(Lazy(json.value)) else ParseId(q)
  }

  /** No quote of either kind, no backslash and no control character. */
  predicate Clean(name: string) {
    forall c :: c in name ==> c != '\'' && c != '"' && c != '\\' && c >= ' '
  }

  predicate Printable(r: LazyRef) {
    r.Lazy? ==> Clean(r.name)
  }

  lemma {:induction false} CleanIsRead(name: string)
    requires Clean(name)
    ensures JsonRest(name + "\"") == Some(name)
  {
    var s := name + "\"";
    if name == [] {
    } else {
      assert s[0] == name[0] && name[0] in name;
      assert s[1..] == name[1..] + "\"";
      assert forall c :: c in name[1..] ==> c in name;
      CleanIsRead(name[1..]);
      assert name == [name[0]] + name[1..];
    }
  }

  /** A literal is longer than what it says, by just its quote only if it is clean. */
  lemma {:induction false} ReadIsClean(s: string)
    requires JsonRest(s).Some?
    ensures |JsonRest(s).value| < |s|
    ensures |JsonRest(s).value| + 1 == |s| ==>
      s == JsonRest(s).value + "\"" && forall c :: c in JsonRest(s).value ==> c != '"' && c != '\\' && c >= ' '
  {
    if s[0] == '\\' {
      ReadIsClean(s[Escape(s).value.1..]);
    } else if s[0] != '"' {
      ReadIsClean(s[1..]);
      assert s == [s[0]] + s[1..];
    }
  }

  lemma ReadBackIsClean(name: string)
    requires JsonRest(Requote(name) + "\"") == Some(name)
    ensures Clean(name)
  {
    var body := Requote(name) + "\"";
    ReadIsClean(body);
    assert body[..|name|] == name && body[..|name|] == Requote(name);
    forall c | c in name ensures c != '\'' {
      var i :| 0 <= i < |name| && name[i] == c;
      assert Requote(name)[i] == c;
    }
  }

  /** A reference is read back as it was printed exactly when it is printable. */
  lemma PrintedParses(r: LazyRef)
    requires Proper(r)
    ensures Parse(Print(r)) == Ok(r) <==> Printable(r)
  {
    var s := Print(r);
    var q := Requote(s);
    if r.Resolved? {
      assert q == s by {
        forall i | 0 <= i < |s| ensures s[i] != '\'' {
          assert s[i] in s && IsHex(s[i]);
        }
      }
      assert s[0] in s && s[0] != '"';
      assert Lowered(s) == s by {
        forall i | 0 <= i < |s| ensures Lower(s[i]) == s[i] {
          assert s[i] in s && IsHex(s[i]);
        }
      }
      assert s + Zeroes(0) == s;
    } else {
      var body := Requote(r.name) + "\"";
      assert q == "\"" + body && q[1..] == body;
      if Clean(r.name) {
        assert Requote(r.name) == r.name by {
          assert forall i :: 0 <= i < |r.name| ==> r.name[i] in r.name;
        }
        CleanIsRead(r.name);
      }
      if JsonRest(body) == Some(r.name) {
        ReadBackIsClean(r.name);
      }
    }
  }

  /** What is not printable is read back shorter, if at all. */
  lemma ReadBackShrinks(r: LazyRef)
    requires !Printable(r) && Parse(Print(r)).Ok?
    ensures Parse(Print(r)).value.Lazy? && |Parse(Print(r)).value.name| < |r.name|
  {
    var s := Print(r);
    var q, body := Requote(s), Requote(r.name) + "\"";
    assert q == "\"" + body && q[1..] == body;
    assert Lowered(q)[0] in Lowered(q) && !IsHex(Lowered(q)[0]);
    var name := JsonRest(body).value;
    ReadIsClean(body);
    if |name| == |r.name| {
      assert body[..|name|] == name && body[..|name|] == Requote(r.name);
      forall c | c in r.name ensures c != '\'' && c != '"' && c != '\\' && c >= ' ' {
        var i :| 0 <= i < |r.name| && r.name[i] == c;
        assert Requote(r.name)[i] in name;
      }
    }
  }

  lemma ParsedIsProper(s: string)
    requires Parse(s).Ok?
    ensures Proper(Parse(s).value)
  {
  }
}
