/** accounts/hd.go: parsing and printing hierarchical deterministic derivation paths. */
module HDPath {
  import opened Basics

  newtype uint32 = x: int | 0 <= x < 0x1_0000_0000

  type Path = seq<uint32>

  /** First hardened index (BIP-32, section "Extended keys"). */
  const HARDENED: int := 0x8000_0000
  const MAX_UINT32: int := 0xFFFF_FFFF

  /** m/44'/60'/0'/0, the root that relative paths are appended to. */
  const DEFAULT_ROOT: Path := [0x8000_002C, 0x8000_003C, 0x8000_0000, 0]

  datatype Error = Ambiguous | Empty | InvalidComponent | OutOfRange | OutOfHardenedRange

  datatype Result<T> = Ok(value: T) | Err(error: Error)

  // Strings.

  /** White space in the sense of unicode.IsSpace. */
  predicate IsSpace(c: char) {
    || c == '\t' || c == '\n' || c == '\U{0B}' || c == '\U{0C}' || c == '\r' || c == ' '
    || c == '\U{85}' || c == '\U{A0}' || c == '\U{1680}' || '\U{2000}' <= c <= '\U{200A}'
    || c == '\U{2028}' || c == '\U{2029}' || c == '\U{202F}' || c == '\U{205F}' || c == '\U{3000}'
  }

  /** strings.TrimSpace. */
  function Trim(s: string): string {
    if s == "" then ""
    else if IsSpace(s[0]) then Trim(s[1..])
    else if IsSpace(s[|s| - 1]) then Trim(s[..|s| - 1])
    else s
  }

  /** strings.Split on "/": always at least one component. */
  function Split(s: string): (r: seq<string>)
    ensures |r| > 0
  {
    if s == "" then [""]
    else
      var rest := Split(s[1..]);
      if s[0] == '/' then [""] + rest else [[s[0]] + rest[0]] + rest[1..]
  }

  // Numbers, as big.Int.SetString reads them with base 0.

  function DigitValue(c: char): nat {
    if '0' <= c <= '9' then c as int - '0' as int
    else if 'a' <= c <= 'z' then c as int - 'a' as int + 10
    else if 'A' <= c <= 'Z' then c as int - 'A' as int + 10
    else 37
  }

  /** What the scanner saw last. */
  datatype Previous = Start | Digit | Separator

  /** Reads digits of a base; an underscore may only stand between digits. */
  function Scan(s: string, base: nat, acc: nat, previous: Previous, any: bool): Option<nat> {
    if s == "" then if any && previous.Digit? then Some(acc) else None
    else if s[0] == '_' then
      if previous.Digit? then Scan(s[1..], base, acc, Separator, any) else None
    else if DigitValue(s[0]) < base then Scan(s[1..], base, acc * base + DigitValue(s[0]), Digit, true)
    else None
  }

  /** An unsigned number: 0b, 0o, 0x and a bare leading 0 choose the base. */
  function Unsigned(s: string): Option<nat> {
    if |s| > 1 && s[0] == '0' then
      if s[1] == 'b' || s[1] == 'B' then Scan(s[2..], 2, 0, Digit, false)
      else if s[1] == 'o' || s[1] == 'O' then Scan(s[2..], 8, 0, Digit, false)
      else if s[1] == 'x' || s[1] == 'X' then Scan(s[2..], 16, 0, Digit, false)
      else Scan(s[1..], 8, 0, Digit, false)
    else Scan(s, 10, 0, Start, false)
  }

  function Number(s: string): Option<int> {
    if s != "" && (s[0] == '+' || s[0] == '-') then
      var n := Unsigned(s[1..]);
      if n.None? then None else 
        var v: int := n.value;
        Some(if s[0] == '-' then -v else v)
    else
      var n := Unsigned(s);
      if n.None? then None else Some(n.value)
  }

  function Decimal(n: nat): (s: string)
    ensures |s| > 0
  {
    if n < 10 then [DecimalDigit(n)] else Decimal(n / 10) + [DecimalDigit(n % 10)]
  }

  function DecimalDigit(d: nat): char
    requires d < 10
  {
    "0123456789"[d]
  }

  // Paths.

  /** One component of a path. */
  function Component(text: string): Result<uint32> {
    var t := Trim(text);
    var hardened := t != "" && t[|t| - 1] == '\'';
    var body := if hardened then Trim(t[..|t| - 1]) else t;
    var base := if hardened then HARDENED else 0;
    var n := Number(body);
    if n.None? then Err(InvalidComponent)
    else if n.value < 0 || n.value > MAX_UINT32 - base then Err(if hardened then OutOfHardenedRange else OutOfRange)
    else Ok((base + n.value) as uint32)
  }

  function Extended(front: Result<Path>, last: Result<uint32>): Result<Path> {
    if front.Err? then front else if last.Err? then Err(last.error) else Ok(front.value + [last.value])
  }

  function Values(texts: seq<string>): seq<Result<uint32>> {
    seq(|texts|, i requires 0 <= i < |texts| => Component(texts[i]))
  }

  /** All components; the first bad one decides the error. */
  function Collected(values: seq<Result<uint32>>): Result<Path> {
    if values == [] then Ok([])
    else Extended(Collected(values[..|values| - 1]), values[|values| - 1])
  }

  function Parsed(text: string): Result<Path> {
    var texts := Split(text);
    var head := Trim(texts[0]);
    if head == "" then Err(Ambiguous)
    else if head == "m" then
      if |texts| == 1 then Err(Empty) else Collected(Values(texts[1..]))
    else
      var rest := Collected(Values(texts));
      if rest.Err? then rest else Ok(DEFAULT_ROOT + rest.value)
  }

  function Shown(c: uint32): string {
    if c as int >= HARDENED then Decimal(c as int - HARDENED) + "'" else Decimal(c as int)
  }

  function Printed(path: Path): string {
    if path == [] then "m" else Printed(path[..|path| - 1]) + ("/" + Shown(path[|path| - 1]))
  }

  method ParseDerivationPath(text: string) returns (r: Result<Path>)
    ensures r == Parsed(text)
  {
    var result: Path := [];
    var texts := Split(text);
    var head := Trim(texts[0]);
    if head == "" {
      return Err(Ambiguous);
    } else if head == "m" {
      texts := texts[1..];
    } else {
      result := DEFAULT_ROOT;
    }
    if texts == [] {
      return Err(Empty);
    }
    ghost var c := Collected(Values(texts));
    assert c.Ok? ==> [] + c.value == c.value;
    r := AppendComponents(result, texts);
  }

  /** The loop of the parser: appends the components to a path, up to the first that is bad. */
  method AppendComponents(root: Path, texts: seq<string>) returns (r: Result<Path>)
    ensures var c := Collected(Values(texts)); r == if c.Err? then c else Ok(root + c.value)
  {
    var result := root;
    ghost var values := Values(texts);
    var i := 0;
    while i < |texts|
      invariant 0 <= i <= |texts|
      invariant Collected(values[..i]).Ok? && result == root + Collected(values[..i]).value
    {
      CollectedNext(values, i);
      var value := Component(texts[i]);
      if value.Err? {
        CollectedStop(values, i + 1);
        return Err(value.error);
      }
      result := result + [value.value];
      i := i + 1;
    }
    assert values[..i] == values;
    r := Ok(result);
  }

  method Print(path: Path) returns (text: string)
    ensures text == Printed(path)
  {
    text := "m";
    for i := 0 to |path|
      invariant text == Printed(path[..i])
    {
      assert path[..i + 1][..i] == path[..i];
      var component, hardened := path[i] as int, false;
      if component >= HARDENED {
        component := component - HARDENED;
        hardened := true;
      }
      var shown := Decimal(component);
      if hardened {
        shown := shown + "'";
      }
      text := text + ("/" + shown);
    }
    assert path[..|path|] == path;
  }

  // Laws.

  lemma CollectedNext(values: seq<Result<uint32>>, i: nat)
    requires i < |values|
    ensures Collected(values[..i + 1]) == Extended(Collected(values[..i]), values[i])
  {
    assert values[..i + 1][..i] == values[..i];
  }

  lemma {:induction false} CollectedStop(values: seq<Result<uint32>>, i: nat)
    requires i <= |values| && Collected(values[..i]).Err?
    ensures Collected(values) == Collected(values[..i])
    decreases |values|
  {
    if i < |values| {
      var front := values[..|values| - 1];
      assert front[..i] == values[..i];
      CollectedStop(front, i);
    } else {
      assert values[..i] == values;
    }
  }

  lemma {:induction false} CollectedJoin(a: seq<Result<uint32>>, b: seq<Result<uint32>>)
    requires Collected(a).Ok?
    ensures Collected(a + b) == if Collected(b).Err? then Collected(b) else Ok(Collected(a).value + Collected(b).value)
    decreases |b|
  {
    if b == [] {
      assert a + b == a;
      assert Collected(a).value + [] == Collected(a).value;
    } else {
      var front := b[..|b| - 1];
      assert (a + b)[..|a + b| - 1] == a + front;
      CollectedJoin(a, front);
      if Collected(b).Ok? {
        var x := [b[|b| - 1].value];
        assert Collected(a).value + (Collected(front).value + x) == Collected(a).value + Collected(front).value + x;
      }
    }
  }

  lemma ValuesJoin(a: seq<string>, b: seq<string>)
    ensures Values(a + b) == Values(a) + Values(b)
  {
  }

  lemma {:induction false} CollectedAll(values: seq<Result<uint32>>, path: Path)
    requires |values| == |path| && forall i :: 0 <= i < |path| ==> values[i] == Ok(path[i])
    ensures Collected(values) == Ok(path)
  {
    if path != [] {
      var n := |path| - 1;
      CollectedAll(values[..n], path[..n]);
      assert path == path[..n] + [path[n]];
    }
  }

  lemma {:induction false} SplitJoin(a: string, b: string)
    ensures Split(a + "/" + b) == Split(a) + Split(b)
  {
    var s := a + "/" + b;
    if a == "" {
      assert s[1..] == b;
    } else {
      assert s[1..] == a[1..] + "/" + b;
      SplitJoin(a[1..], b);
    }
  }

  lemma {:induction false} SplitSingle(s: string)
    requires '/' !in s
    ensures Split(s) == [s]
  {
    if s != "" {
      SplitSingle(s[1..]);
      assert s == [s[0]] + s[1..];
    }
  }

  lemma SplitSnoc(a: string, b: string)
    requires '/' !in b
    ensures Split(a + ("/" + b)) == Split(a) + [b]
  {
    SplitSingle(b);
    SplitJoin(a, b);
    assert a + "/" + b == a + ("/" + b);
  }

  ghost predicate AllDigits(s: string) {
    forall i :: 0 <= i < |s| ==> '0' <= s[i] <= '9'
  }

  lemma {:induction false} DecimalDigits(n: nat)
    ensures AllDigits(Decimal(n))
    ensures Decimal(n)[0] == '0' ==> n == 0
  {
    if n >= 10 {
      DecimalDigits(n / 10);
    }
  }

  lemma {:induction false} ScanDecimal(n: nat, t: string)
    ensures Scan(Decimal(n) + t, 10, 0, Start, false) == Scan(t, 10, n, Digit, true)
  {
    if n < 10 {
      var s := Decimal(n) + t;
      assert DigitValue(s[0]) == n && s[1..] == t;
    } else {
      var d := [DecimalDigit(n % 10)];
      ScanDecimal(n / 10, d + t);
      assert Decimal(n) + t == Decimal(n / 10) + (d + t);
      assert (d + t)[1..] == t && DigitValue(d[0]) == n % 10;
    }
  }

  /** A printed number is read back in base ten: it never starts with a zero that is not alone. */
  lemma NumberDecimal(n: nat)
    ensures Number(Decimal(n)) == Some(n)
  {
    DecimalDigits(n);
    ScanDecimal(n, "");
    var s := Decimal(n);
    assert s + "" == s;
    assert '0' <= s[0] <= '9';
  }

  /** A string that starts and ends in a visible character is not trimmed. */
  lemma TrimVisible(s: string)
    requires s != "" && '\'' <= s[0] <= '9' && '\'' <= s[|s| - 1] <= '9'
    ensures Trim(s) == s
  {
  }

  lemma DecimalVisible(n: nat)
    ensures Trim(Decimal(n)) == Decimal(n) && Trim(Decimal(n) + "'") == Decimal(n) + "'"
    ensures '/' !in Decimal(n) && '\'' !in Decimal(n)
  {
    var d := Decimal(n);
    DecimalDigits(n);
    assert '0' <= d[0] <= '9' && '0' <= d[|d| - 1] <= '9';
    TrimVisible(d);
    TrimVisible(d + "'");
  }

  lemma PlainBack(n: nat)
    requires n < HARDENED
    ensures Component(Decimal(n)) == Ok(n as uint32)
  {
    DecimalVisible(n);
    NumberDecimal(n);
    assert Decimal(n)[|Decimal(n)| - 1] in Decimal(n);
  }

  lemma HardenedBack(n: nat)
    requires n < HARDENED
    ensures Component(Decimal(n) + "'") == Ok((HARDENED + n) as uint32)
  {
    DecimalVisible(n);
    NumberDecimal(n);
    var s := Decimal(n) + "'";
    assert s[..|s| - 1] == Decimal(n);
  }

  lemma ShownBack(c: uint32)
    ensures Component(Shown(c)) == Ok(c) && '/' !in Shown(c)
  {
    if c as int >= HARDENED {
      DecimalVisible(c as int - HARDENED);
      HardenedBack(c as int - HARDENED);
    } else {
      DecimalVisible(c as int);
      PlainBack(c as int);
    }
  }

  // What texts denote.

  /** Trimming removes the white space at both ends, and nothing else. */
  lemma {:induction false} TrimExactly(s: string) returns (i: nat, j: nat)
    ensures i <= j <= |s| && Trim(s) == s[i..j]
    ensures forall k :: 0 <= k < i || j <= k < |s| ==> IsSpace(s[k])
    ensures i < j ==> !IsSpace(s[i]) && !IsSpace(s[j - 1])
  {
    i, j := 0, |s|;
    if s != "" && IsSpace(s[0]) {
      var a, b := TrimExactly(s[1..]);
      i, j := a + 1, b + 1;
    } else if s != "" && IsSpace(s[|s| - 1]) {
      i, j := TrimExactly(s[..|s| - 1]);
    }
  }

  /** Digits of a base, with single underscores only before a digit. */
  ghost predicate Spelled(s: string, base: nat) {
    && s != "" && (forall i :: 0 <= i < |s| ==> s[i] == '_' || DigitValue(s[i]) < base)
    && forall i {:trigger s[i]} :: 0 <= i < |s| && s[i] == '_' ==> i + 1 < |s| && s[i + 1] != '_'
  }

  /** The number that digits denote after those of acc, by position. */
  function Denoted(acc: nat, s: string, base: nat): nat {
    if s == "" then acc
    else
      var front, last := Denoted(acc, s[..|s| - 1], base), s[|s| - 1];
      if last == '_' then front else front * base + DigitValue(last)
  }

  lemma {:induction false} DenotedFirst(acc: nat, s: string, base: nat)
    requires s != ""
    ensures Denoted(acc, s, base)
         == Denoted(if s[0] == '_' then acc else acc * base + DigitValue(s[0]), s[1..], base)
  {
    if |s| > 1 {
      DenotedFirst(acc, s[..|s| - 1], base);
      assert s[..|s| - 1][1..] == s[1..][..|s| - 2];
    } else {
      assert s[..0] == "" && s[1..] == "";
    }
  }

  /** The scanner reads what the digits denote. */
  lemma {:induction false} ScanDenotes(s: string, base: nat, acc: nat, previous: Previous, any: bool, v: nat, d: nat)
    requires Scan(s, base, acc, previous, any) == Some(v) && d == Denoted(acc, s, base)
    ensures v == d
  {
    if s != "" {
      var next := ScanNext(s, base, acc, previous, any, v, d);
      ScanDenotes(s[1..], base, next, if s[0] == '_' then Separator else Digit, s[0] != '_' || any, v, d);
    }
  }

  lemma ScanNext(s: string, base: nat, acc: nat, previous: Previous, any: bool, v: nat, d: nat) returns (next: nat)
    requires s != "" && Scan(s, base, acc, previous, any) == Some(v) && d == Denoted(acc, s, base)
    ensures Scan(s[1..], base, next, if s[0] == '_' then Separator else Digit, s[0] != '_' || any) == Some(v)
    ensures d == Denoted(next, s[1..], base)
  {
    next := if s[0] == '_' then acc else acc * base + DigitValue(s[0]);
    DenotedStep(acc, s, base, next);
  }

  lemma DenotedStep(acc: nat, s: string, base: nat, next: nat)
    requires s != "" && next == if s[0] == '_' then acc else acc * base + DigitValue(s[0])
    ensures Denoted(acc, s, base) == Denoted(next, s[1..], base)
  {
    DenotedFirst(acc, s, base);
  }

  ghost predicate Fits(s: string, base: nat, previous: Previous, any: bool) {
    if s == "" then any && previous.Digit? else Spelled(s, base) && (s[0] == '_' ==> previous.Digit?)
  }

  lemma FitsNext(s: string, base: nat, previous: Previous, any: bool)
    requires base <= 36 && s != ""
    ensures Fits(s, base, previous, any) <==>
      if s[0] == '_' then previous.Digit? && Fits(s[1..], base, Separator, any)
      else DigitValue(s[0]) < base && Fits(s[1..], base, Digit, true)
  {
    SpelledFirst(s, base);
  }

  /** It accepts exactly the well-spelled digits. */
  lemma {:induction false} ScanFits(s: string, base: nat, acc: nat, previous: Previous, any: bool)
    requires base <= 36
    ensures Scan(s, base, acc, previous, any).Some? <==> Fits(s, base, previous, any)
  {
    if s != "" {
      FitsNext(s, base, previous, any);
      if s[0] == '_' {
        ScanFits(s[1..], base, acc, Separator, any);
      } else {
        ScanFits(s[1..], base, acc * base + DigitValue(s[0]), Digit, true);
      }
    }
  }

  lemma SpelledFirst(s: string, base: nat)
    requires s != ""
    ensures Spelled(s, base) <==> if s[0] == '_' then |s| > 1 && s[1] != '_' && Spelled(s[1..], base)
                                  else DigitValue(s[0]) < base && (|s| > 1 ==> Spelled(s[1..], base))
  {
    var rest := s[1..];
    assert forall i :: 0 <= i < |rest| ==> rest[i] == s[i + 1];
    assert forall i :: 0 < i < |s| ==> s[i] == rest[i - 1];
  }

  /** A prefix, in either case, chooses base 2, 8 or 16, a bare leading zero base 8, and all else is decimal. */
  lemma UnsignedMeans(s: string)
    ensures var (skip, base) := Prefix(s);
      && (Unsigned(s).Some? <==> Spelled(s[skip..], base) && (skip == 0 ==> s[0] != '_'))
      && (Unsigned(s).Some? ==> Unsigned(s).value == Denoted(0, s[skip..], base))
  {
    var (skip, base) := Prefix(s);
    var previous := if skip == 0 then Start else Digit;
    ScanFits(s[skip..], base, 0, previous, false);
    if Unsigned(s).Some? {
      ScanDenotes(s[skip..], base, 0, previous, false, Unsigned(s).value, Denoted(0, s[skip..], base));
    }
  }

  /** How many characters a number's prefix has, and the base it chooses. */
  function Prefix(s: string): (r: (nat, nat))
    ensures r.0 <= |s| && r.1 in {2, 8, 10, 16}
  {
    if |s| < 2 || s[0] != '0' then (0, 10)
    else if s[1] in "bB" then (2, 2)
    else if s[1] in "oO" then (2, 8)
    else if s[1] in "xX" then (2, 16)
    else (1, 8)
  }

  /** A sign may precede a number. */
  lemma NumberMeans(s: string)
    ensures Unsigned(s).Some? ==> Number(s) == Some(Unsigned(s).value)
    ensures Unsigned(s).Some? ==>
      var v: int := Unsigned(s).value; Number("+" + s) == Some(v) && Number("-" + s) == Some(-v)
    ensures Unsigned(s).None? ==> Number("+" + s).None? && Number("-" + s).None?
  {
    assert ("+" + s)[1..] == s && ("-" + s)[1..] == s;
  }

  ghost predicate AllSpaces(s: string) {
    forall i :: 0 <= i < |s| ==> IsSpace(s[i])
  }

  /** White space around a text does not matter to what trimming leaves. */
  lemma {:induction false} TrimPadded(pre: string, t: string, post: string)
    requires AllSpaces(pre) && AllSpaces(post) && Trim(t) == t
    ensures Trim(pre + t + post) == t
    decreases |pre| + |post|
  {
    var s := pre + t + post;
    if pre != "" {
      assert s[1..] == pre[1..] + t + post && s[0] == pre[0];
      TrimPadded(pre[1..], t, post);
    } else if post != "" {
      var front := post[..|post| - 1];
      TrimPadded("", t, front);
      TrimLast(t + front, post[|post| - 1]);
      assert s == (t + front) + [post[|post| - 1]] && "" + t + front == t + front;
    } else {
      assert s == t;
    }
  }

  lemma {:induction false} TrimLast(s: string, c: char)
    requires IsSpace(c)
    ensures Trim(s + [c]) == Trim(s)
  {
    var long := s + [c];
    if s == "" {
      assert long[1..] == "";
    } else if IsSpace(s[0]) {
      assert long[1..] == s[1..] + [c];
      TrimLast(s[1..], c);
    } else {
      assert long[..|long| - 1] == s;
    }
  }

  lemma TrimEnds(t: string)
    requires t != "" && Trim(t) == t
    ensures !IsSpace(t[0]) && !IsSpace(t[|t| - 1])
  {
    var i, j := TrimExactly(t);
    assert |t[i..j]| == j - i;
  }

  /** The component a number gives, counted from the first plain or the first hardened index. */
  function Placed(n: Option<int>, base: int, outside: Error): Result<uint32>
    requires base in {0, HARDENED}
  {
    if n.None? then Err(InvalidComponent)
    else if 0 <= n.value && base + n.value <= MAX_UINT32 then Ok((base + n.value) as uint32)
    else Err(outside)
  }

  lemma PlainMeans(text: string)
    requires Trim(text) == "" || Trim(text)[|Trim(text)| - 1] != '\''
    ensures Component(text) == Placed(Number(Trim(text)), 0, OutOfRange)
  {
  }

  lemma HardenedMeans(text: string, q: string)
    requires Trim(text) == q + "'"
    ensures Component(text) == Placed(Number(Trim(q)), HARDENED, OutOfHardenedRange)
  {
    var t := q + "'";
    assert t[..|t| - 1] == q;
  }

  /** A number with white space around it is a plain component. */
  lemma PlainComponent(pre: string, t: string, post: string)
    requires AllSpaces(pre) && AllSpaces(post) && Trim(t) == t && (t == "" || t[|t| - 1] != '\'')
    ensures Component(pre + t + post) == Placed(Number(t), 0, OutOfRange)
  {
    TrimPadded(pre, t, post);
    PlainMeans(pre + t + post);
  }

  /** With a quote after it, a hardened one. */
  lemma HardenedComponent(pre: string, t: string, mid: string, post: string)
    requires AllSpaces(pre) && AllSpaces(mid) && AllSpaces(post) && Trim(t) == t
    ensures Component(pre + (t + mid + "'") + post) == Placed(Number(t), HARDENED, OutOfHardenedRange)
  {
    var q := TrimQuoted(pre, t, mid, post);
    HardenedMeans(pre + (t + mid + "'") + post, q);
  }

  lemma TrimQuoted(pre: string, t: string, mid: string, post: string) returns (q: string)
    requires AllSpaces(pre) && AllSpaces(mid) && AllSpaces(post) && Trim(t) == t
    ensures Trim(pre + (t + mid + "'") + post) == q + "'" && Trim(q) == t
  {
    if t == "" {
      q := "";
      assert pre + (t + mid + "'") + post == (pre + mid) + "'" + post;
      QuotedTrimmed("'");
      TrimPadded(pre + mid, "'", post);
    } else {
      q := t + mid;
      QuotedAfter(pre, t, mid, post);
      assert "" + t + mid == q;
      TrimPadded("", t, mid);
    }
  }

  lemma QuotedAfter(pre: string, t: string, mid: string, post: string)
    requires AllSpaces(pre) && AllSpaces(post) && t != "" && Trim(t) == t
    ensures Trim(pre + (t + mid + "'") + post) == t + mid + "'"
  {
    TrimEnds(t);
    var q := t + mid + "'";
    assert q[0] == t[0] && q[|q| - 1] == '\'';
    QuotedTrimmed(q);
    TrimPadded(pre, q, post);
  }

  lemma QuotedTrimmed(q: string)
    requires q != "" && !IsSpace(q[0]) && !IsSpace(q[|q| - 1])
    ensures Trim(q) == q
  {
  }

  /** The root that relative paths are appended to, as it is written. */
  lemma DefaultRoot()
    ensures Printed(DEFAULT_ROOT) == "m/44'/60'/0'/0"
    ensures Parsed("m/44'/60'/0'/0") == Ok(DEFAULT_ROOT)
  {
    assert Printed([]) == "m";
    assert DEFAULT_ROOT[..1] == [0x8000_002C] && DEFAULT_ROOT[..1][..0] == [];
    assert DEFAULT_ROOT[..2][..1] == DEFAULT_ROOT[..1];
    assert DEFAULT_ROOT[..3][..2] == DEFAULT_ROOT[..2];
    assert Decimal(44) == "44" && Decimal(60) == "60";
    assert Printed(DEFAULT_ROOT[..1]) == "m/44'";
    assert Printed(DEFAULT_ROOT[..2]) == "m/44'/60'";
    assert Printed(DEFAULT_ROOT[..3]) == "m/44'/60'/0'";
    RoundTrip(DEFAULT_ROOT);
  }

  function Texts(path: Path): seq<string> {
    seq(|path|, i requires 0 <= i < |path| => Shown(path[i]))
  }

  lemma {:induction false} SplitPrinted(path: Path)
    ensures Split(Printed(path)) == ["m"] + Texts(path)
  {
    if path == [] {
      SplitSingle("m");
    } else {
      var front, c := path[..|path| - 1], path[|path| - 1];
      SplitPrinted(front);
      ShownBack(c);
      SplitSnoc(Printed(front), Shown(c));
      TextsSnoc(front, c);
      assert path == front + [c];
      assert ["m"] + Texts(front) + [Shown(c)] == ["m"] + (Texts(front) + [Shown(c)]);
    }
  }

  lemma TextsSnoc(front: Path, c: uint32)
    ensures Texts(front + [c]) == Texts(front) + [Shown(c)]
  {
  }

  lemma PrintedBack(path: Path)
    ensures Split(Printed(path))[0] == "m" && |Split(Printed(path))| == |path| + 1
    ensures Collected(Values(Split(Printed(path))[1..])) == Ok(path)
  {
    SplitPrinted(path);
    assert Split(Printed(path))[1..] == Texts(path);
    var values := Values(Texts(path));
    forall i | 0 <= i < |path| ensures values[i] == Ok(path[i]) {
      ShownBack(path[i]);
    }
    CollectedAll(values, path);
  }

  /** Parsing the printed form gives the path back, exactly for the non-empty paths. */
  lemma RoundTrip(path: Path)
    ensures Parsed(Printed(path)) == Ok(path) <==> path != []
    ensures path == [] ==> Parsed(Printed(path)) == Err(Empty)
  {
    PrintedBack(path);
    assert Trim("m") == "m";
  }

  /** Two paths with the same printed form are the same path. */
  lemma PrintInjective(p: Path, q: Path)
    requires Printed(p) == Printed(q)
    ensures p == q
  {
    PrintedBack(p);
    PrintedBack(q);
  }

  /** Every accepted text names a non-empty path, and printing that path is a canonical text for it. */
  lemma Canonical(text: string)
    requires Parsed(text).Ok?
    ensures Parsed(text).value != [] && Parsed(Printed(Parsed(text).value)) == Parsed(text)
  {
    RoundTrip(Parsed(text).value);
    var texts := Split(text);
    if Trim(texts[0]) == "m" {
      var rest := texts[1..];
      assert Values(rest) != [];
    }
  }

  /** A relative text means the same as that text appended to the printed default root, errors included. */
  lemma RelativeToRoot(text: string)
    requires Trim(Split(text)[0]) != "" && Trim(Split(text)[0]) != "m"
    ensures Parsed(text) == Parsed(Printed(DEFAULT_ROOT) + "/" + text)
  {
    PrintedBack(DEFAULT_ROOT);
    SplitJoin(Printed(DEFAULT_ROOT), text);
    var root, texts := Split(Printed(DEFAULT_ROOT)), Split(text);
    var below := root[1..];
    assert (root + texts)[1..] == below + texts;
    ValuesJoin(below, texts);
    CollectedJoin(Values(below), Values(texts));
    assert Trim("m") == "m";
  }
}
