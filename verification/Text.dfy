// Byte strings as the media server uses them: the order of std::string keys,
// prefixes, decimal numbers and the parts of a file name.
module Text {
  import opened Wrappers

  const INT64_MAX: int := 0x7FFF_FFFF_FFFF_FFFF
  const UINT64_MAX: int := 0xFFFF_FFFF_FFFF_FFFF

  // ----- Lexicographic order -----

  predicate Less(a: string, b: string) {
    if b == [] then false
    else if a == [] then true
    else a[0] < b[0] || (a[0] == b[0] && Less(a[1..], b[1..]))
  }

  lemma {:induction false} LessTotal(a: string, b: string)
    ensures a == b || Less(a, b) || Less(b, a)
  {
    if a != [] && b != [] && a[0] == b[0] {
      LessTotal(a[1..], b[1..]);
      assert a == [a[0]] + a[1..] && b == [b[0]] + b[1..];
    }
  }

  lemma {:induction false} LessTransitive(a: string, b: string, c: string)
    requires Less(a, b) && Less(b, c)
    ensures Less(a, c)
  {
    if a != [] && a[0] == b[0] && b[0] == c[0] {
      LessTransitive(a[1..], b[1..], c[1..]);
    }
  }

  // The first difference decides; a proper prefix comes first.
  lemma {:induction false} LessIs(a: string, b: string)
    ensures Less(a, b) <==>
            a < b || exists k :: 0 <= k < |a| && k < |b| && a[..k] == b[..k] && a[k] < b[k]
  {
    if a != [] && b != [] && a[0] == b[0] {
      LessIs(a[1..], b[1..]);
      if k :| 0 <= k < |a| && k < |b| && a[..k] == b[..k] && a[k] < b[k] {
        assert a[1..][..k - 1] == a[..k][1..] && b[1..][..k - 1] == b[..k][1..];
        assert a[1..][k - 1] < b[1..][k - 1];
      }
      if k :| 0 <= k < |a[1..]| && k < |b[1..]| && a[1..][..k] == b[1..][..k] && a[1..][k] < b[1..][k] {
        assert a[..k + 1] == [a[0]] + a[1..][..k] && b[..k + 1] == [b[0]] + b[1..][..k];
        assert a[k + 1] < b[k + 1];
      }
      assert a == [a[0]] + a[1..] && b == [b[0]] + b[1..];
    } else if a != [] && b != [] {
      assert a[..0] == b[..0];
    }
  }

  // A string that starts with a prefix never sorts before it.
  lemma {:induction false} PrefixNotAfter(prefix: string, s: string)
    requires prefix <= s
    ensures !Less(s, prefix)
  {
    if prefix != [] {
      assert prefix[1..] <= s[1..];
      PrefixNotAfter(prefix[1..], s[1..]);
    }
  }

  // Strings sharing a prefix are contiguous: whatever lies between the prefix
  // and a string that starts with it starts with it as well.
  lemma {:induction false} PrefixConvex(prefix: string, middle: string, s: string)
    requires !Less(middle, prefix) && Less(middle, s) && prefix <= s
    ensures prefix <= middle
  {
    if prefix != [] {
      assert middle != [] && prefix[0] == s[0];
      assert prefix[1..] <= s[1..];
      assert middle[0] == prefix[0];
      PrefixConvex(prefix[1..], middle[1..], s[1..]);
      assert prefix == [prefix[0]] + prefix[1..] && middle == [middle[0]] + middle[1..];
    }
  }

  predicate Contains(s: string, part: string) {
    part <= s || (s != [] && Contains(s[1..], part))
  }

  lemma {:induction false} ContainsIs(s: string, part: string)
    ensures Contains(s, part) <==> exists i :: 0 <= i <= |s| && part <= s[i..]
  {
    assert s[0..] == s;
    if s != [] {
      ContainsIs(s[1..], part);
      if i :| 0 <= i <= |s| && part <= s[i..] && i > 0 {
        assert s[1..][i - 1..] == s[i..];
      }
      if i :| 0 <= i <= |s[1..]| && part <= s[1..][i..] {
        assert s[1..][i..] == s[i + 1..];
      }
    }
  }

  // ----- Decimal numbers -----

  predicate IsDigit(c: char) {
    '0' <= c <= '9'
  }

  lemma DigitsAre(c: char)
    ensures IsDigit(c) <==> c in "0123456789"
    ensures forall n :: 0 <= n < 10 ==> IsDigit("0123456789"[n]) && DigitValue("0123456789"[n]) == n
  {
  }

  predicate AllDigits(s: string) {
    forall i :: 0 <= i < |s| ==> IsDigit(s[i])
  }

  function DigitValue(c: char): (n: nat)
    requires IsDigit(c)
    ensures n < 10
  {
    c as int - '0' as int
  }

  function DigitChar(n: nat): (c: char)
    requires n < 10
    ensures IsDigit(c) && DigitValue(c) == n
  {
    (n + '0' as int) as char
  }

  function DecimalValue(s: string): nat
    requires AllDigits(s)
  {
    if s == [] then 0
    else 10 * DecimalValue(s[..|s| - 1]) + DigitValue(s[|s| - 1])
  }

  function FormatNat(n: nat): (s: string)
    ensures s != [] && AllDigits(s) && DecimalValue(s) == n
  {
    if n < 10 then [DigitChar(n)]
    else
      var front := FormatNat(n / 10);
      var s := front + [DigitChar(n % 10)];
      assert s[..|s| - 1] == front;
      s
  }

  function FormatInt(n: int): string {
    if n < 0 then "-" + FormatNat(-n) else FormatNat(n)
  }

  // An unsigned decimal that fits 64 bits; anything else is no number.
  function ParseUint64(s: string): Option<nat> {
    if s == [] || !AllDigits(s) || DecimalValue(s) > UINT64_MAX then None
    else Some(DecimalValue(s))
  }

  // A signed decimal that fits 64 bits and fills the whole text.
  function ParseInt64(s: string): Option<int> {
    var negative := s != [] && s[0] == '-';
    var digits := if s != [] && (s[0] == '-' || s[0] == '+') then s[1..] else s;
    if digits == [] || !AllDigits(digits) then None
    else
      var magnitude: int := DecimalValue(digits);
      var value := if negative then -magnitude else magnitude;
      if -INT64_MAX - 1 <= value <= INT64_MAX then Some(value) else None
  }

  // A sign or none, then digits, and a value that fits 64 bits: any such text is
  // read as its value, and no other text is a number.
  lemma ParseInt64Is(sign: string, digits: string)
    requires sign == "" || sign == "+" || sign == "-"
    requires digits != [] && AllDigits(digits)
    ensures var magnitude: int := DecimalValue(digits);
            var value := if sign == "-" then -magnitude else magnitude;
            ParseInt64(sign + digits) == if -INT64_MAX - 1 <= value <= INT64_MAX then Some(value) else None
  {
    if sign == "" {
      assert sign + digits == digits;
      assert IsDigit(digits[0]);
    } else {
      assert (sign + digits)[1..] == digits;
    }
  }

  lemma ParseInt64Only(s: string)
    ensures ParseInt64(s).Some? ==>
              s != [] && AllDigits(s[1..]) && (IsDigit(s[0]) || (|s| > 1 && (s[0] == '+' || s[0] == '-')))
  {
  }

  lemma ParseFormatInt(n: int)
    requires -INT64_MAX - 1 <= n <= INT64_MAX
    ensures ParseInt64(FormatInt(n)) == Some(n)
  {
    var digits := FormatNat(if n < 0 then -n else n);
    if n < 0 {
      assert FormatInt(n)[1..] == digits;
    } else {
      assert IsDigit(digits[0]);
    }
  }

  // ----- File names -----

  const SLASH := '/'

  function Join(path: string, name: string): string {
    if path == [] || path[|path| - 1] == SLASH then path + name
    else path + [SLASH] + name
  }

  // The part after the last slash.
  function FileName(path: string): string {
    if path == [] || path[|path| - 1] == SLASH then []
    else FileName(path[..|path| - 1]) + [path[|path| - 1]]
  }

  // It holds no slash, and a slash comes before it unless it is everything.
  lemma {:induction false} FileNameIs(path: string) returns (head: string)
    ensures path == head + FileName(path) && SLASH !in FileName(path)
    ensures head == [] || head[|head| - 1] == SLASH
  {
    head := path;
    if path != [] && path[|path| - 1] != SLASH {
      var front, last := path[..|path| - 1], path[|path| - 1];
      head := FileNameIs(front);
      assert path == (head + FileName(front)) + [last];
      assert (head + FileName(front)) + [last] == head + (FileName(front) + [last]);
    }
  }

  lemma {:induction false} FileNameAfterSlash(head: string, name: string)
    requires SLASH !in name
    requires head == [] || head[|head| - 1] == SLASH
    ensures FileName(head + name) == name
  {
    if name == [] {
      assert head + name == head;
    } else {
      var front := name[..|name| - 1];
      FileNameAfterSlash(head, front);
      assert (head + name)[..|head + name| - 1] == head + front;
      assert (head + name)[|head + name| - 1] == name[|name| - 1];
      assert name == front + [name[|name| - 1]];
    }
  }

  // The file name of a directory entry's path is the name it was listed under.
  lemma FileNameOfJoin(path: string, name: string)
    requires SLASH !in name
    ensures FileName(Join(path, name)) == name
  {
    if path == [] || path[|path| - 1] == SLASH {
      FileNameAfterSlash(path, name);
    } else {
      FileNameAfterSlash(path + [SLASH], name);
    }
  }

  // The index of the last dot, or -1.
  function LastDot(name: string): (i: int)
    ensures -1 <= i < |name|
    ensures i >= 0 ==> name[i] == '.'
    ensures forall k :: i < k < |name| ==> name[k] != '.'
  {
    if name == [] then -1
    else if name[|name| - 1] == '.' then |name| - 1
    else LastDot(name[..|name| - 1])
  }

  // Where the extension of a file name starts: at the last dot, unless the
  // name has none, starts with its only dot, or is "." or "..".
  function ExtensionStart(name: string): (i: nat)
    ensures i <= |name|
  {
    var dot := LastDot(name);
    if dot <= 0 || name == ".." then |name| else dot
  }

  function Stem(name: string): string {
    name[..ExtensionStart(name)]
  }

  function Extension(name: string): string {
    name[ExtensionStart(name)..]
  }

  // The part before the last dot, which is not the first character; without
  // such a dot, and for "..", the whole name.
  lemma StemIs(name: string)
    ensures Stem(name) <= name && Stem(name) + Extension(name) == name
    ensures Extension(name) == [] <==> name == ".." || forall i :: 0 < i < |name| ==> name[i] != '.'
    ensures Extension(name) != [] ==>
              && Stem(name) != [] && Extension(name)[0] == '.'
              && forall i :: 0 < i < |Extension(name)| ==> Extension(name)[i] != '.'
  {
    var dot := LastDot(name);
    if name != ".." && dot > 0 {
      assert forall i :: 0 < i < |Extension(name)| ==> Extension(name)[i] == name[dot + i];
    }
  }

  // A name ends in an extension of its own when something comes before it.
  predicate EndsWith(name: string, end: string) {
    |end| < |name| && name[|name| - |end|..] == end
  }

  lemma ExtensionEnds(name: string, end: string)
    requires |end| == 4 && end[0] == '.' && '.' !in end[1..]
    ensures Extension(name) == end <==> EndsWith(name, end)
    ensures EndsWith(name, end) ==> Stem(name) == name[..|name| - 4]
  {
    StemIs(name);
    var n := |name| - 4;
    if EndsWith(name, end) {
      assert forall i :: 0 <= i < 4 ==> name[n + i] == end[i];
      assert forall i :: 1 <= i < 4 ==> end[1..][i - 1] == end[i];
      assert name[n] == '.' && forall k :: n < k < |name| ==> name[k] != '.';
      assert LastDot(name) == n;
    }
  }
}
