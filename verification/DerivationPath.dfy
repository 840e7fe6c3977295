/** Derivation paths of hierarchical deterministic wallets, as text and as numbers. */
module DerivationPaths {
  import opened Wrappers

  datatype Error = Ambiguous | Empty | Invalid(component: string)

  datatype Result = Ok(path: seq<Uint32>) | Failed(err: Error)

  type Uint32 = n: int | 0 <= n <= 0xffff_ffff

  const HARDENED := 0x8000_0000
  const DEFAULT_ROOT: seq<Uint32> := [HARDENED + 44, HARDENED + 60, HARDENED + 0, 0]

  // ------------------------------------------------------------------ strings

  /** White space in the sense of Unicode. */
  predicate IsSpace(c: char) {
    var x := c as int;
    || 9 <= x <= 13 || x == 0x20 || x == 0x85 || x == 0xa0 || x == 0x1680 || 0x2000 <= x <= 0x200a
    || x == 0x2028 || x == 0x2029 || x == 0x202f || x == 0x205f || x == 0x3000
  }

  function TrimLeft(s: string): (t: string) {
    if s != [] && IsSpace(s[0]) then TrimLeft(s[1..]) else s
  }

  function TrimRight(s: string): (t: string) {
    if s != [] && IsSpace(s[|s| - 1]) then TrimRight(s[..|s| - 1]) else s
  }

  function TrimSpace(s: string): (t: string) { TrimRight(TrimLeft(s)) }

  predicate Spaces(s: string) { forall i :: 0 <= i < |s| ==> IsSpace(s[i]) }

  lemma {:induction false} TrimLeftPadded(a: string, s: string, b: string)
    requires Spaces(a) && Spaces(b)
    ensures TrimLeft(a + s + b) == if TrimLeft(s) == [] then [] else TrimLeft(s) + b
    decreases |a| + |s| + |b|
  {
    var u := a + s + b;
    if a != [] {
      assert u[1..] == a[1..] + s + b;
      TrimLeftPadded(a[1..], s, b);
    } else if s != [] && IsSpace(s[0]) {
      assert u[1..] == [] + s[1..] + b;
      TrimLeftPadded([], s[1..], b);
    } else if s == [] && b != [] {
      assert u[1..] == [] + [] + b[1..];
      TrimLeftPadded([], [], b[1..]);
    } else {
      assert u == s + b;
    }
  }

  lemma {:induction false} TrimRightPadded(s: string, b: string)
    requires Spaces(b)
    ensures TrimRight(s + b) == TrimRight(s)
    decreases |b|
  {
    if b == [] {
      assert s + b == s;
    } else {
      assert (s + b)[..|s + b| - 1] == s + b[..|b| - 1];
      TrimRightPadded(s, b[..|b| - 1]);
    }
  }

  /** White space around a text is ignored. */
  lemma TrimPadded(a: string, s: string, b: string)
    requires Spaces(a) && Spaces(b)
    ensures TrimSpace(a + s + b) == TrimSpace(s)
  {
    TrimLeftPadded(a, s, b);
    TrimRightPadded(TrimLeft(s), b);
  }

  /** The parts of a string between slashes. */
  function Split(s: string): (parts: seq<string>)
    ensures |parts| >= 1
  {
    if s == [] then [[]]
    else if s[|s| - 1] == '/' then Split(s[..|s| - 1]) + [[]]
    else var parts := Split(s[..|s| - 1]); parts[|parts| - 1 := parts[|parts| - 1] + [s[|s| - 1]]]
  }

  /** A part after a slash is a part of its own. */
  lemma {:induction false} SplitLast(s: string, t: string)
    requires '/' !in t
    ensures Split(s + "/" + t) == Split(s) + [t]
  {
    var u := s + "/" + t;
    if t == [] {
      assert u == s + "/" && u[..|u| - 1] == s;
    } else {
      var t' := t[..|t| - 1];
      SplitLast(s, t');
      assert u[..|u| - 1] == s + "/" + t' && u[|u| - 1] == t[|t| - 1] && t == t' + [t[|t| - 1]];
    }
  }

  // ------------------------------------------------------------------ numbers

  function DigitValue(c: char): (d: nat) {
    if '0' <= c <= '9' then c as int - '0' as int
    else if 'a' <= c <= 'z' then c as int - 'a' as int + 10
    else if 'A' <= c <= 'Z' then c as int - 'A' as int + 10
    else 36
  }

  /** The number a string of digits stands for; None if there is another character. */
  function Digits(s: string, base: nat): (n: Option<nat>) {
    if s == [] then Some(0)
    else
      var n, d := Digits(s[..|s| - 1], base), DigitValue(s[|s| - 1]);
      if n.None? || d >= base then None else Some(n.value * base + d)
  }

  /** Digits, at least one, after a prefix for the base: 0x and 0b, 0 for octal. */
  function Magnitude(s: string): (n: Option<nat>) {
    if s == [] then None
    else if s == "0" then Some(0)
    else if s[0] == '0' && s[1] in "xX" then if |s| == 2 then None else Digits(s[2..], 16)
    else if s[0] == '0' && s[1] in "bB" then if |s| == 2 then None else Digits(s[2..], 2)
    else if s[0] == '0' then Digits(s[1..], 8)
    else Digits(s, 10)
  }

  function SetString(s: string): (n: Option<int>) {
    if s != [] && s[0] == '-' then Signed(Magnitude(s[1..]), -1)
    else if s != [] && s[0] == '+' then Signed(Magnitude(s[1..]), 1)
    else Signed(Magnitude(s), 1)
  }

  function Signed(n: Option<nat>, sign: int): (r: Option<int>) {
    if n.None? then None else Some(sign * n.value)
  }

  function Digit(d: nat): (c: char)
    requires d < 10
  {
    ('0' as int + d) as char
  }

  function Decimal(n: nat): (s: string)
    ensures |s| >= 1
  {
    if n < 10 then [Digit(n)] else Decimal(n / 10) + [Digit(n % 10)]
  }

  /** A number in decimal is read back. */
  lemma {:induction false} DecimalBack(n: nat)
    ensures Digits(Decimal(n), 10) == Some(n)
    ensures n > 0 ==> Decimal(n)[0] != '0'
    ensures forall i :: 0 <= i < |Decimal(n)| ==> '0' <= Decimal(n)[i] <= '9'
  {
    var s := Decimal(n);
    if n < 10 {
      assert s[..|s| - 1] == [];
    } else {
      DecimalBack(n / 10);
      assert s[..|s| - 1] == Decimal(n / 10);
    }
  }

  lemma SetStringBack(n: nat)
    ensures SetString(Decimal(n)) == Some(n)
  {
    DecimalBack(n);
    assert n == 0 ==> Decimal(n) == "0";
  }

  // --------------------------------------------------------------- other bases

  /** The digit of a base up to 16, with a letter in either case. */
  function DigitIn(d: nat, upper: bool): (c: char)
    requires d < 16
  {
    if d < 10 then ('0' as int + d) as char
    else if upper then ('A' as int + d - 10) as char else ('a' as int + d - 10) as char
  }

  /** A number in a base, with at least one digit. */
  function InBase(n: nat, base: nat, upper: bool): (s: string)
    requires 2 <= base <= 16
    ensures |s| >= 1
    decreases n
  {
    if n < base then [DigitIn(n, upper)] else InBase(n / base, base, upper) + [DigitIn(n % base, upper)]
  }

  lemma DigitBack(d: nat, upper: bool)
    requires d < 16
    ensures DigitValue(DigitIn(d, upper)) == d
    ensures d < 10 ==> '0' <= DigitIn(d, upper) <= '9'
  {
  }

  lemma {:induction false} InBaseBack(n: nat, base: nat, upper: bool)
    requires 2 <= base <= 16
    ensures Digits(InBase(n, base, upper), base) == Some(n)
    ensures base <= 10 ==> '0' <= InBase(n, base, upper)[0] <= '9'
    decreases n
  {
    var s := InBase(n, base, upper);
    if n < base {
      DigitBack(n, upper);
      assert s[..|s| - 1] == [];
      assert Digits(s[..|s| - 1], base) == Some(0);
    } else {
      Shorten(n, base);
      InBaseBack(n / base, base, upper);
      DigitBack(n % base, upper);
      MoreDigits(InBase(n / base, base, upper), n / base, base, n % base, DigitIn(n % base, upper));
    }
  }

  lemma MoreDigits(s: string, n: nat, base: nat, d: nat, c: char)
    requires Digits(s, base) == Some(n) && DigitValue(c) == d < base
    ensures Digits(s + [c], base) == Some(n * base + d)
  {
    assert (s + [c])[..|s|] == s;
  }

  lemma Shorten(n: nat, base: nat)
    requires 2 <= base <= n
    ensures 0 < n / base < n && n % base < base && n / base * base + n % base == n
  {
  }

  /** A number in hexadecimal after 0x or 0X, in binary after 0b or 0B, or in octal after 0 is read
      back. */
  lemma PrefixedBack(n: nat, upper: bool)
    ensures SetString("0x" + InBase(n, 16, upper)) == Some(n) && SetString("0X" + InBase(n, 16, upper)) == Some(n)
    ensures SetString("0b" + InBase(n, 2, upper)) == Some(n) && SetString("0B" + InBase(n, 2, upper)) == Some(n)
    ensures SetString("0" + InBase(n, 8, upper)) == Some(n)
  {
    InBaseBack(n, 16, upper);
    InBaseBack(n, 2, upper);
    InBaseBack(n, 8, upper);
    Prefixed('x', InBase(n, 16, upper));
    Prefixed('X', InBase(n, 16, upper));
    Prefixed('b', InBase(n, 2, upper));
    Prefixed('B', InBase(n, 2, upper));
    Octal(InBase(n, 8, upper));
  }

  lemma Prefixed(c: char, s: string)
    requires c in "xXbB" && s != []
    ensures SetString(['0', c] + s) == Signed(Digits(s, if c in "xX" then 16 else 2), 1)
  {
    assert (['0', c] + s)[2..] == s;
  }

  lemma Octal(s: string)
    requires s != [] && '0' <= s[0] <= '9'
    ensures SetString("0" + s) == Signed(Digits(s, 8), 1)
  {
    var u := "0" + s;
    assert u[1..] == s && u[0] == '0' && u[1] == s[0] && |u| >= 2;
    assert u[1] !in "xX" && u[1] !in "bB" && u != "0";
  }

  // ---------------------------------------------------------------- components

  function Component(c: Uint32): (s: string) {
    if c >= HARDENED then Decimal(c - HARDENED) + "'" else Decimal(c)
  }

  /** A component: a number, up to the largest with 32 bits, or up to 31 bits and a quote
      for hardened derivation. */
  function ParseComponent(text: string): (r: Option<Uint32>) {
    var c := TrimSpace(text);
    if c != [] && c[|c| - 1] == '\'' then Number(TrimSpace(c[..|c| - 1]), HARDENED) else Number(c, 0)
  }

  /** A number on top of a value, within 32 bits. */
  function Number(digits: string, value: Uint32): (r: Option<Uint32>) {
    var n := SetString(digits);
    if n.None? || n.value < 0 || n.value > 0xffff_ffff - value then None else Some(value + n.value)
  }

  /** So it is around a component, and before its quote. */
  lemma SpacesIgnored(a: string, text: string, b: string)
    requires Spaces(a) && Spaces(b)
    ensures ParseComponent(a + text + b) == ParseComponent(text)
    ensures ParseComponent(a + text + b + "'") == ParseComponent(text + "'")
  {
    TrimPadded(a, text, b);
    QuotedTrim(a + text + b);
    QuotedTrim(text);
  }

  /** A quote at the end is not trimmed, and what is before it is trimmed by itself. */
  lemma QuotedTrim(s: string)
    ensures ParseComponent(s + "'") == Number(TrimSpace(s), HARDENED)
  {
    TrimLeftQuoted(s);
    var c := TrimSpace(s + "'");
    assert c == TrimLeft(s) + "'" && c[..|c| - 1] == TrimLeft(s);
    TrimLeftAgain(s);
  }

  lemma {:induction false} TrimLeftQuoted(s: string)
    ensures TrimLeft(s + "'") == TrimLeft(s) + "'"
  {
    if s != [] && IsSpace(s[0]) {
      assert (s + "'")[1..] == s[1..] + "'";
      TrimLeftQuoted(s[1..]);
    }
  }

  lemma {:induction false} TrimLeftAgain(s: string)
    ensures TrimLeft(TrimLeft(s)) == TrimLeft(s)
  {
    if s != [] && IsSpace(s[0]) {
      TrimLeftAgain(s[1..]);
    }
  }

  lemma NothingToTrim(s: string)
    requires s == [] || (!IsSpace(s[0]) && !IsSpace(s[|s| - 1]))
    ensures TrimSpace(s) == s
  {
  }

  lemma DecimalPlain(n: nat)
    ensures TrimSpace(Decimal(n)) == Decimal(n) && '/' !in Decimal(n) && Decimal(n)[|Decimal(n)| - 1] != '\''
    ensures SetString(Decimal(n)) == Some(n) && !IsSpace(Decimal(n)[0])
  {
    DecimalBack(n);
    SetStringBack(n);
    NothingToTrim(Decimal(n));
  }

  /** A printed component is read back. */
  lemma ComponentBack(c: Uint32)
    ensures ParseComponent(Component(c)) == Some(c)
    ensures '/' !in Component(c)
  {
    if c >= HARDENED {
      DecimalPlain(c - HARDENED);
      QuotedTrim(Decimal(c - HARDENED));
    } else {
      DecimalPlain(c);
    }
  }

  // ---------------------------------------------------------------- paths

  function Components(path: seq<Uint32>): (s: seq<string>) {
    seq(|path|, i requires 0 <= i < |path| => Component(path[i]))
  }

  function Printed(path: seq<Uint32>): (s: string) {
    if path == [] then "m" else Printed(path[..|path| - 1]) + "/" + Component(path[|path| - 1])
  }

  /** The canonical text of a path. */
  method String(path: seq<Uint32>) returns (result: string)
    ensures result == Printed(path)
  {
    result := "m";
    var i := 0;
    while i < |path|
      invariant 0 <= i <= |path| && result == Printed(path[..i])
    {
      var component: int, hardened := path[i], false;
      if component >= HARDENED {
        component, hardened := component - HARDENED, true;
      }
      assert path[..i + 1][..i] == path[..i];
      ghost var before := result;
      result := result + "/" + Decimal(component);
      if hardened {
        result := result + "'";
        assert result == before + "/" + (Decimal(component) + "'");
      }
      i := i + 1;
    }
    assert path[..i] == path;
  }

  lemma SplitOne()
    ensures Split("m") == ["m"]
  {
    var s: string := "m";
    assert s[..0] == [];
    var parts := Split(s[..0]);
    assert |parts| == 1 && parts[0] + ['m'] == s;
  }

  lemma SplitStep(text: string, path: seq<Uint32>, c: Uint32)
    requires Split(text) == ["m"] + Components(path)
    ensures Split(text + "/" + Component(c)) == ["m"] + Components(path + [c])
  {
    ComponentBack(c);
    SplitLast(text, Component(c));
    assert Components(path + [c]) == Components(path) + [Component(c)];
  }

  lemma {:induction false} SplitPrinted(path: seq<Uint32>)
    ensures Split(Printed(path)) == ["m"] + Components(path)
  {
    if path == [] {
      SplitOne();
      assert ["m"] + Components([]) == ["m"];
    } else {
      var init, c := path[..|path| - 1], path[|path| - 1];
      SplitPrinted(init);
      SplitStep(Printed(init), init, c);
      assert init + [c] == path;
    }
  }

  /** The components one after the other, up to the first that is no number in range. */
  function ParseAll(parts: seq<string>): (r: Result) {
    if parts == [] then Ok([])
    else
      var r, c := ParseAll(parts[..|parts| - 1]), ParseComponent(parts[|parts| - 1]);
      if r.Failed? then r else if c.None? then Failed(Invalid(parts[|parts| - 1])) else Ok(r.path + [c.value])
  }

  /** A text as a path: absolute after "m/", else relative to the default root. */
  function Parsed(text: string): (r: Result) {
    var parts := Split(text);
    var first := TrimSpace(parts[0]);
    if first == "" then Failed(Ambiguous)
    else if first == "m" then (if |parts| == 1 then Failed(Empty) else ParseAll(parts[1..]))
    else
      var r := ParseAll(parts);
      if r.Failed? then r else Ok(DEFAULT_ROOT + r.path)
  }

  lemma {:induction false} ParseAllFails(parts: seq<string>, i: nat)
    requires i <= |parts| && ParseAll(parts[..i]).Failed?
    ensures ParseAll(parts) == ParseAll(parts[..i])
    decreases |parts|
  {
    if i < |parts| {
      assert parts[..|parts| - 1][..i] == parts[..i];
      ParseAllFails(parts[..|parts| - 1], i);
    } else {
      assert parts[..i] == parts;
    }
  }

  /** Append the components to a root path. */
  method AppendAll(root: seq<Uint32>, components: seq<string>) returns (r: Result)
    ensures r == if ParseAll(components).Failed? then ParseAll(components) else Ok(root + ParseAll(components).path)
  {
    var result, i := root, 0;
    while i < |components|
      invariant 0 <= i <= |components|
      invariant ParseAll(components[..i]).Ok? && result == root + ParseAll(components[..i]).path
    {
      var c := ParseComponent(components[i]);
      ParseNext(components, i);
      if c.None? {
        ParseAllFails(components, i + 1);
        return Failed(Invalid(components[i]));
      }
      result := result + [c.value];
      i := i + 1;
    }
    assert components[..i] == components;
    r := Ok(result);
  }

  lemma ParseNext(parts: seq<string>, i: nat)
    requires i < |parts| && ParseAll(parts[..i]).Ok?
    ensures var c := ParseComponent(parts[i]);
            ParseAll(parts[..i + 1]) == if c.None? then Failed(Invalid(parts[i])) else Ok(ParseAll(parts[..i]).path + [c.value])
  {
    assert parts[..i + 1][..i] == parts[..i];
  }

  method ParseDerivationPath(text: string) returns (r: Result)
    ensures r == Parsed(text)
  {
    var result: seq<Uint32> := [];
    var components := Split(text);
    var first := TrimSpace(components[0]);
    if first == "" {
      return Failed(Ambiguous);
    } else if first == "m" {
      components := components[1..];
    } else {
      result := DEFAULT_ROOT;
    }
    if |components| == 0 {
      return Failed(Empty);
    }
    r := AppendAll(result, components);
  }

  lemma {:induction false} ParseComponents(path: seq<Uint32>)
    ensures ParseAll(Components(path)) == Ok(path)
  {
    if path != [] {
      var init := path[..|path| - 1];
      ParseComponents(init);
      ComponentBack(path[|path| - 1]);
      assert Components(path)[..|path| - 1] == Components(init);
      assert path == init + [path[|path| - 1]];
    }
  }

  /** A printed path is read back, unless it is empty. */
  lemma RoundTrip(path: seq<Uint32>)
    ensures Parsed(Printed(path)) == if path == [] then Failed(Empty) else Ok(path)
  {
    SplitPrinted(path);
    NothingToTrim("m");
    ParseComponents(path);
    assert (["m"] + Components(path))[1..] == Components(path);
  }

  lemma {:induction false} ParseAllLength(parts: seq<string>)
    ensures ParseAll(parts).Ok? ==> |ParseAll(parts).path| == |parts|
  {
    if parts != [] {
      ParseAllLength(parts[..|parts| - 1]);
    }
  }

  /** What was read from any text can be printed and read again. */
  lemma Stable(text: string)
    requires Parsed(text).Ok?
    ensures Parsed(Printed(Parsed(text).path)) == Parsed(text)
  {
    var parts := Split(text);
    ParseAllLength(parts);
    ParseAllLength(parts[1..]);
    RoundTrip(Parsed(text).path);
  }

  // ------------------------------------------------------------ relative texts

  /** The first part of a text is neither empty nor the root, but for white space. */
  predicate Relative(text: string) {
    var first := TrimSpace(Split(text)[0]);
    first != "" && first != "m"
  }

  /** The parts on both sides of a slash. */
  lemma {:induction false} SplitJoin(s: string, t: string)
    ensures Split(s + "/" + t) == Split(s) + Split(t)
  {
    var u := s + "/" + t;
    if t == [] {
      assert u == s + "/" && u[..|u| - 1] == s;
    } else {
      var init, c := t[..|t| - 1], t[|t| - 1];
      SplitJoin(s, init);
      assert u[..|u| - 1] == s + "/" + init && u[|u| - 1] == c;
    }
  }

  lemma {:induction false} ParseAllAppend(a: seq<string>, b: seq<string>)
    requires ParseAll(a).Ok?
    ensures ParseAll(a + b) == if ParseAll(b).Failed? then ParseAll(b) else Ok(ParseAll(a).path + ParseAll(b).path)
  {
    if b == [] {
      assert a + b == a;
    } else {
      ParseAllAppend(a, b[..|b| - 1]);
      assert (a + b)[..|a + b| - 1] == a + b[..|b| - 1];
    }
  }

  lemma RootText()
    ensures Printed(DEFAULT_ROOT) == "m/44'/60'/0'/0"
  {
    var r := DEFAULT_ROOT;
    assert Decimal(44) == "44" && Decimal(60) == "60" && Decimal(0) == "0";
    assert r[..0] == [] && r[..1][..0] == r[..0] && r[..2][..1] == r[..1] && r[..3][..2] == r[..2] && r[..4] == r;
    assert Printed(r[..1]) == "m/44'";
    assert Printed(r[..2]) == "m/44'/60'";
    assert Printed(r[..3]) == "m/44'/60'/0'";
  }

  /** A relative text is the absolute one below the default root. */
  lemma RelativeIs(text: string)
    requires Relative(text)
    ensures Parsed(text) == Parsed("m/44'/60'/0'/0" + "/" + text)
  {
    var root := Printed(DEFAULT_ROOT);
    RootText();
    SplitJoin(root, text);
    SplitPrinted(DEFAULT_ROOT);
    NothingToTrim("m");
    var parts := ["m"] + Components(DEFAULT_ROOT) + Split(text);
    assert parts[1..] == Components(DEFAULT_ROOT) + Split(text);
    ParseComponents(DEFAULT_ROOT);
    ParseAllAppend(Components(DEFAULT_ROOT), Split(text));
  }
}
