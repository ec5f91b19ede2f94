/** JSON values and their compact text, as `encoding/json` writes it.
    The point of the module is unique readability: the text of an object can be
    followed by anything and still be read back in one way only. */
module Json {
  datatype Option<+T> = None | Some(value: T)

  predicate NumChar(c: char) {
    '0' <= c <= '9' || c == '-' || c == '+' || c == '.' || c == 'e' || c == 'E'
  }

  predicate IsNumText(s: string) {
    |s| > 0 && forall i :: 0 <= i < |s| ==> NumChar(s[i])
  }

  type NumText = s: string | IsNumText(s) witness "0"

  datatype Value =
    | Null
    | Bool(b: bool)
    | Num(token: NumText)
    | Str(s: string)
    | Arr(items: seq<Value>)
    | Obj(members: seq<Member>)

  datatype Member = Member(name: string, value: Value)

  // Text

  function HexDigit(n: nat): char
    requires n < 16
  {
    "0123456789abcdef"[n]
  }

  function Hex4(n: nat): string
    requires n < 0x10000
  {
    [HexDigit(n / 4096), HexDigit(n / 256 % 16), HexDigit(n / 16 % 16), HexDigit(n % 16)]
  }

  /** String escaping of encoding/json, HTML-sensitive characters and the two line separators included.
      Rendered resources are marshalled by CUE, whose escapes may differ in places; unique readability
      only needs that no escape is a prefix of another. */
  function EscapeChar(c: char): string {
    if c == '"' then ['\\', '"']
    else if c == '\\' then ['\\', '\\']
    else if c as int == 0x08 then ['\\', 'b']
    else if c as int == 0x0c then ['\\', 'f']
    else if c == '\n' then ['\\', 'n']
    else if c == '\r' then ['\\', 'r']
    else if c == '\t' then ['\\', 't']
    else if c < ' ' || c == '<' || c == '>' || c == '&' || c as int == 0x2028 || c as int == 0x2029
    then ['\\', 'u'] + Hex4(c as int)
    else [c]
  }

  /** The text of the string body, its closing quote, then `rest`. */
  function WriteString(s: string, rest: string): string {
    if s == "" then ['"'] + rest else EscapeChar(s[0]) + WriteString(s[1..], rest)
  }

  /** The text of a value, then `rest`. */
  function Write(v: Value, rest: string): string
    decreases v, 1
  {
    match v
    case Null => "null" + rest
    case Bool(b) => if b then "true" + rest else "false" + rest
    case Num(t) => t + rest
    case Str(s) => ['"'] + WriteString(s, rest)
    case Arr(xs) => ['['] + (if xs == [] then [']'] + rest else Write(xs[0], WriteItems(xs[1..], rest)))
    case Obj(ms) => ['{'] + (if ms == [] then ['}'] + rest else WriteMember(ms[0], WriteMembers(ms[1..], rest)))
  }

  function WriteItems(xs: seq<Value>, rest: string): string
    decreases xs, 0
  {
    if xs == [] then [']'] + rest else [','] + Write(xs[0], WriteItems(xs[1..], rest))
  }

  function WriteMember(m: Member, rest: string): string
    decreases m, 0
  {
    ['"'] + WriteString(m.name, [':'] + Write(m.value, rest))
  }

  function WriteMembers(ms: seq<Member>, rest: string): string
    decreases ms, 0
  {
    if ms == [] then ['}'] + rest else [','] + WriteMember(ms[0], WriteMembers(ms[1..], rest))
  }

  /** The compact text of a value. */
  function Text(v: Value): string {
    Write(v, "")
  }

  // Unique readability

  lemma HexDigitInjective(m: nat, n: nat)
    requires m < 16 && n < 16 && HexDigit(m) == HexDigit(n)
    ensures m == n
  {
  }

  lemma HexParts(n: nat)
    requires n < 0x10000
    ensures n == 4096 * (n / 4096) + 256 * (n / 256 % 16) + 16 * (n / 16 % 16) + n % 16
  {
    assert n / 256 == 16 * (n / 4096) + n / 256 % 16;
    assert n / 16 == 16 * (n / 256) + n / 16 % 16;
  }

  lemma Hex4Injective(m: nat, n: nat)
    requires m < 0x10000 && n < 0x10000 && Hex4(m) == Hex4(n)
    ensures m == n
  {
    var x, y := Hex4(m), Hex4(n);
    assert x[0] == y[0] && x[1] == y[1] && x[2] == y[2] && x[3] == y[3];
    HexDigitInjective(m / 4096, n / 4096);
    HexDigitInjective(m / 256 % 16, n / 256 % 16);
    HexDigitInjective(m / 16 % 16, n / 16 % 16);
    HexDigitInjective(m % 16, n % 16);
    assert m == n by { HexParts(m); HexParts(n); }
  }

  /** The escapes of two characters are never prefixes of one another. */
  lemma ReadChar(c: char, d: char, t: string, u: string)
    requires EscapeChar(c) + t == EscapeChar(d) + u
    ensures c == d && t == u
  {
    var x, y := EscapeChar(c), EscapeChar(d);
    assert (x + t)[0] == x[0] && (y + u)[0] == y[0];
    if |x| > 1 && |y| > 1 {
      assert (x + t)[1] == x[1] && (y + u)[1] == y[1];
      if |x| > 2 && |y| > 2 {
        assert x == (x + t)[..6] && y == (y + u)[..6];
        assert Hex4(c as int) == x[2..] && Hex4(d as int) == y[2..];
        Hex4Injective(c as int, d as int);
      }
    }
    assert c == d;
    assert t == (x + t)[|x|..] && u == (y + u)[|y|..];
  }

  lemma Peel(c: char, t: string, u: string)
    requires [c] + t == [c] + u
    ensures t == u
  {
    assert t == ([c] + t)[1..] && u == ([c] + u)[1..];
  }

  lemma {:induction false} ReadString(a: string, b: string, t: string, u: string)
    requires WriteString(a, t) == WriteString(b, u)
    ensures a == b && t == u
  {
    assert a != "" ==> WriteString(a, t)[0] == EscapeChar(a[0])[0] != '"';
    assert b != "" ==> WriteString(b, u)[0] == EscapeChar(b[0])[0] != '"';
    if a == "" || b == "" {
      Peel('"', t, u);
    } else {
      ReadChar(a[0], b[0], WriteString(a[1..], t), WriteString(b[1..], u));
      ReadString(a[1..], b[1..], t, u);
      assert a == [a[0]] + a[1..] && b == [b[0]] + b[1..];
    }
  }

  /** What may follow a value inside a document. */
  predicate Stops(t: string) {
    t == "" || t[0] == ',' || t[0] == ']' || t[0] == '}'
  }

  lemma ReadNum(a: NumText, b: NumText, t: string, u: string)
    requires Stops(t) && Stops(u) && a + t == b + u
    ensures a == b && t == u
  {
    NumNotShorter(a, b, t, u);
    NumNotShorter(b, a, u, t);
    assert a == (a + t)[..|a|] && b == (b + u)[..|b|];
    assert t == (a + t)[|a|..] && u == (b + u)[|b|..];
  }

  lemma NumNotShorter(a: NumText, b: NumText, t: string, u: string)
    requires Stops(t) && a + t == b + u
    ensures |a| >= |b|
  {
    assert forall i :: 0 <= i < |b| ==> NumChar((b + u)[i]);
    assert t != "" ==> !NumChar((a + t)[|a|]);
  }

  /** The first character of a text, which names the kind of the value. */
  predicate HeadOf(v: Value, c: char) {
    match v
    case Null => c == 'n'
    case Bool(b) => c == if b then 't' else 'f'
    case Num(_) => NumChar(c)
    case Str(_) => c == '"'
    case Arr(_) => c == '['
    case Obj(_) => c == '{'
  }

  lemma Head(v: Value, rest: string)
    ensures |Write(v, rest)| > 0 && HeadOf(v, Write(v, rest)[0])
  {
    match v
    case Null => assert ("null" + rest)[0] == 'n';
    case Bool(b) => assert ("true" + rest)[0] == 't' && ("false" + rest)[0] == 'f';
    case Num(t) => assert NumChar(t[0]);
    case Str(s) =>
    case Arr(xs) =>
    case Obj(ms) =>
  }

  /** A value read up to a delimiter is read in one way only. */
  lemma {:induction false} ReadValue(a: Value, b: Value, t: string, u: string)
    requires Stops(t) && Stops(u) && Write(a, t) == Write(b, u)
    ensures a == b && t == u
    decreases a, 1
  {
    Head(a, t);
    Head(b, u);
    match a {
      case Null =>
        assert t == ("null" + t)[4..] && u == ("null" + u)[4..];
      case Bool(x) =>
        var w := if x then "true" else "false";
        assert t == (w + t)[|w|..] && u == (w + u)[|w|..];
      case Num(n) => ReadNum(n, b.token, t, u);
      case Str(s) =>
        Peel('"', WriteString(s, t), WriteString(b.s, u));
        ReadString(s, b.s, t, u);
      case Arr(xs) => ReadArray(xs, b.items, t, u);
      case Obj(ms) => ReadObject(ms, b.members, t, u);
    }
  }

  lemma {:induction false} ReadArray(xs: seq<Value>, ys: seq<Value>, t: string, u: string)
    requires Write(Arr(xs), t) == Write(Arr(ys), u)
    ensures xs == ys && t == u
    decreases xs, 2
  {
    if xs != [] { Head(xs[0], WriteItems(xs[1..], t)); }
    if ys != [] { Head(ys[0], WriteItems(ys[1..], u)); }
    var x := if xs == [] then [']'] + t else Write(xs[0], WriteItems(xs[1..], t));
    var y := if ys == [] then [']'] + u else Write(ys[0], WriteItems(ys[1..], u));
    Peel('[', x, y);
    assert x[0] == y[0];
    if xs == [] || ys == [] {
      Peel(']', t, u);
    } else {
      ReadValue(xs[0], ys[0], WriteItems(xs[1..], t), WriteItems(ys[1..], u));
      ReadItems(xs[1..], ys[1..], t, u);
      assert xs == [xs[0]] + xs[1..] && ys == [ys[0]] + ys[1..];
    }
  }

  lemma {:induction false} ReadItems(xs: seq<Value>, ys: seq<Value>, t: string, u: string)
    requires WriteItems(xs, t) == WriteItems(ys, u)
    ensures xs == ys && t == u
    decreases xs, 0
  {
    assert WriteItems(xs, t)[0] == WriteItems(ys, u)[0];
    if xs == [] {
      Peel(']', t, u);
    } else {
      Peel(',', Write(xs[0], WriteItems(xs[1..], t)), Write(ys[0], WriteItems(ys[1..], u)));
      ReadValue(xs[0], ys[0], WriteItems(xs[1..], t), WriteItems(ys[1..], u));
      ReadItems(xs[1..], ys[1..], t, u);
      assert xs == [xs[0]] + xs[1..] && ys == [ys[0]] + ys[1..];
    }
  }

  lemma {:induction false} ReadMember(m: Member, n: Member, t: string, u: string)
    requires Stops(t) && Stops(u) && WriteMember(m, t) == WriteMember(n, u)
    ensures m == n && t == u
    decreases m, 2
  {
    var x, y := [':'] + Write(m.value, t), [':'] + Write(n.value, u);
    Peel('"', WriteString(m.name, x), WriteString(n.name, y));
    ReadString(m.name, n.name, x, y);
    Peel(':', Write(m.value, t), Write(n.value, u));
    ReadValue(m.value, n.value, t, u);
  }

  /** An object delimits itself: nothing is asked of what follows it. */
  lemma {:induction false} ReadObject(ms: seq<Member>, ns: seq<Member>, t: string, u: string)
    requires Write(Obj(ms), t) == Write(Obj(ns), u)
    ensures ms == ns && t == u
    decreases ms, 2
  {
    var x := if ms == [] then ['}'] + t else WriteMember(ms[0], WriteMembers(ms[1..], t));
    var y := if ns == [] then ['}'] + u else WriteMember(ns[0], WriteMembers(ns[1..], u));
    Peel('{', x, y);
    assert x[0] == y[0];
    if ms == [] || ns == [] {
      Peel('}', t, u);
    } else {
      ReadMember(ms[0], ns[0], WriteMembers(ms[1..], t), WriteMembers(ns[1..], u));
      ReadMembers(ms[1..], ns[1..], t, u);
      assert ms == [ms[0]] + ms[1..] && ns == [ns[0]] + ns[1..];
    }
  }

  lemma {:induction false} ReadMembers(ms: seq<Member>, ns: seq<Member>, t: string, u: string)
    requires WriteMembers(ms, t) == WriteMembers(ns, u)
    ensures ms == ns && t == u
    decreases ms, 0
  {
    assert WriteMembers(ms, t)[0] == WriteMembers(ns, u)[0];
    if ms == [] {
      Peel('}', t, u);
    } else {
      var x, y := WriteMembers(ms[1..], t), WriteMembers(ns[1..], u);
      Peel(',', WriteMember(ms[0], x), WriteMember(ns[0], y));
      ReadMember(ms[0], ns[0], x, y);
      ReadMembers(ms[1..], ns[1..], t, u);
      assert ms == [ms[0]] + ms[1..] && ns == [ns[0]] + ns[1..];
    }
  }

  /** Equal texts are texts of equal values. */
  lemma TextInjective(a: Value, b: Value)
    requires Text(a) == Text(b)
    ensures a == b
  {
    ReadValue(a, b, "", "");
  }

  // Streams of objects

  lemma {:induction false} WriteStringAppends(s: string, t: string, rest: string)
    ensures WriteString(s, t + rest) == WriteString(s, t) + rest
  {
    if s != "" {
      WriteStringAppends(s[1..], t, rest);
    }
  }

  lemma {:induction false} WriteAppends(v: Value, t: string, rest: string)
    ensures Write(v, t + rest) == Write(v, t) + rest
    decreases v, 1
  {
    match v {
      case Null =>
      case Bool(b) =>
      case Num(n) =>
      case Str(s) => WriteStringAppends(s, t, rest);
      case Arr(xs) =>
        if xs != [] {
          WriteItemsAppends(xs[1..], t, rest);
          WriteAppends(xs[0], WriteItems(xs[1..], t), rest);
        }
      case Obj(ms) =>
        if ms != [] {
          WriteMembersAppends(ms[1..], t, rest);
          WriteMemberAppends(ms[0], WriteMembers(ms[1..], t), rest);
        }
    }
  }

  lemma {:induction false} WriteItemsAppends(xs: seq<Value>, t: string, rest: string)
    ensures WriteItems(xs, t + rest) == WriteItems(xs, t) + rest
    decreases xs, 0
  {
    if xs != [] {
      WriteItemsAppends(xs[1..], t, rest);
      WriteAppends(xs[0], WriteItems(xs[1..], t), rest);
    }
  }

  lemma {:induction false} WriteMemberAppends(m: Member, t: string, rest: string)
    ensures WriteMember(m, t + rest) == WriteMember(m, t) + rest
    decreases m, 0
  {
    WriteAppends(m.value, t, rest);
    assert [':'] + (Write(m.value, t) + rest) == [':'] + Write(m.value, t) + rest;
    WriteStringAppends(m.name, [':'] + Write(m.value, t), rest);
  }

  lemma {:induction false} WriteMembersAppends(ms: seq<Member>, t: string, rest: string)
    ensures WriteMembers(ms, t + rest) == WriteMembers(ms, t) + rest
    decreases ms, 0
  {
    if ms != [] {
      WriteMembersAppends(ms[1..], t, rest);
      WriteMemberAppends(ms[0], WriteMembers(ms[1..], t), rest);
    }
  }

  /** The texts of a list of values, one after the other with nothing between them. */
  function Stream(vs: seq<Value>): string {
    if vs == [] then "" else Stream(vs[..|vs| - 1]) + Text(vs[|vs| - 1])
  }

  lemma {:induction false} StreamFront(vs: seq<Value>)
    requires vs != []
    ensures Stream(vs) == Write(vs[0], Stream(vs[1..]))
  {
    var n := |vs| - 1;
    if n == 0 {
      assert vs[1..] == [] && vs[..n] == [];
    } else {
      StreamFront(vs[..n]);
      assert vs[..n][1..] == vs[1..][..n - 1];
      WriteAppends(vs[0], Stream(vs[1..][..n - 1]), Text(vs[n]));
    }
  }

  /** A stream of objects is read back in one way only. */
  lemma {:induction false} StreamInjective(vs: seq<Value>, ws: seq<Value>)
    requires (forall v :: v in vs ==> v.Obj?) && (forall w :: w in ws ==> w.Obj?)
    requires Stream(vs) == Stream(ws)
    ensures vs == ws
  {
    if vs != [] { StreamFront(vs); }
    if ws != [] { StreamFront(ws); }
    if vs != [] && ws != [] {
      assert vs[0] in vs && ws[0] in ws;
      ReadObject(vs[0].members, ws[0].members, Stream(vs[1..]), Stream(ws[1..]));
      StreamInjective(vs[1..], ws[1..]);
      assert vs == [vs[0]] + vs[1..] && ws == [ws[0]] + ws[1..];
    } else if vs != [] {
      Head(vs[0], Stream(vs[1..]));
    } else if ws != [] {
      Head(ws[0], Stream(ws[1..]));
    }
  }

  // Reading members

  /** The value of a member; the last one wins, as when decoding into a Go map. */
  function Find(ms: seq<Member>, name: string): Option<Value> {
    if ms == [] then None
    else if ms[|ms| - 1].name == name then Some(ms[|ms| - 1].value)
    else Find(ms[..|ms| - 1], name)
  }

  function At(v: Value, path: seq<string>): Option<Value>
    decreases path
  {
    if path == [] then Some(v)
    else if v.Obj? then
      (match Find(v.members, path[0])
       case Some(w) => At(w, path[1..])
       case None => None)
    else None
  }

  /** The string at a path, "" when it is missing or not a string. */
  function StringAt(v: Value, path: seq<string>): string {
    match At(v, path)
    case Some(Str(s)) => s
    case _ => ""
  }

  /** Whether a value sets the leaf at `path`. */
  predicate Sets(v: Value, path: seq<string>)
    decreases v
  {
    if v.Obj? then |path| > 0 && exists m :: m in v.members && m.name == path[0] && Sets(m.value, path[1..])
    else path == []
  }
}
