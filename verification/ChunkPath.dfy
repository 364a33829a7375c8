/**
 Where a data node keeps a chunk: the printed chunk id is parsed back to its number, the number gives
 two directory levels, and the file carries the number again.
 */
module ChunkPath {
  import opened Types

  // ---------------------------------------------------------------- printing and parsing numbers

  function DigitChar(d: nat): char
    requires d < 10
  {
    (48 + d) as char
  }

  predicate IsDigit(c: char) {
    '0' <= c <= '9'
  }

  function DigitValue(c: char): nat
    requires IsDigit(c)
  {
    c as int - 48
  }

  function Digits(n: nat): string {
    if n < 10 then [DigitChar(n)] else Digits(n / 10) + [DigitChar(n % 10)]
  }

  function ToString(n: int): string {
    if n < 0 then "-" + Digits(-n) else Digits(n)
  }

  function Number(digits: string): nat
    requires forall i :: 0 <= i < |digits| ==> IsDigit(digits[i])
  {
    if |digits| == 0 then 0 else Number(digits[..|digits| - 1]) * 10 + DigitValue(digits[|digits| - 1])
  }

  function LeadingDigits(s: string): (k: nat)
    ensures k <= |s| && forall i :: 0 <= i < k ==> IsDigit(s[i])
    ensures k < |s| ==> !IsDigit(s[k])
  {
    if |s| == 0 || !IsDigit(s[0]) then 0 else 1 + LeadingDigits(s[1..])
  }

  predicate IsSpace(c: char) {
    c in {' ', '\t', '\n', '\r', 11 as char, 12 as char}
  }

  function SkipSpaces(s: string): string {
    if |s| > 0 && IsSpace(s[0]) then SkipSpaces(s[1..]) else s
  }

  /**
   The library's conversion to a 32-bit integer: blanks, a sign, as many digits as follow. None stands
   for its exceptions, no digits or a number out of range.
   */
  function Stoi(s: string): Option<int> {
    var t := SkipSpaces(s);
    if |t| > 0 && (t[0] == '-' || t[0] == '+') then Signed(t[0] == '-', t[1..]) else Signed(false, t)
  }

  function Signed(negative: bool, body: string): Option<int> {
    var k := LeadingDigits(body);
    if k == 0 then None
    else
      var magnitude: int := Number(body[..k]);
      var v := if negative then -magnitude else magnitude;
      if -0x8000_0000 <= v < 0x8000_0000 then Some(v) else None
  }

  lemma {:induction false} DigitsShape(n: nat)
    ensures |Digits(n)| > 0 && forall i :: 0 <= i < |Digits(n)| ==> IsDigit(Digits(n)[i])
    ensures Number(Digits(n)) == n
  {
    if n >= 10 {
      DigitsShape(n / 10);
      assert Digits(n)[..|Digits(n)| - 1] == Digits(n / 10);
    } else {
      assert Digits(n)[..0] == [];
    }
  }

  lemma {:induction false} AllDigitsLead(s: string)
    requires forall i :: 0 <= i < |s| ==> IsDigit(s[i])
    ensures LeadingDigits(s) == |s|
  {
    if |s| > 0 {
      AllDigitsLead(s[1..]);
    }
  }

  /** Parsing a printed number gives it back if it fits 32 bits, and fails if it does not. */
  lemma StoiOfString(n: int)
    ensures Stoi(ToString(n)) == if -0x8000_0000 <= n < 0x8000_0000 then Some(n) else None
  {
    var magnitude := if n < 0 then 0 - n else n;
    SignedDigits(n < 0, magnitude);
    DigitsShape(magnitude);
    assert IsDigit(Digits(magnitude)[0]);
    if n < 0 {
      assert ToString(n)[1..] == Digits(magnitude);
    }
  }

  lemma SignedDigits(negative: bool, magnitude: nat)
    ensures var v: int := if negative then 0 - magnitude else magnitude;
            Signed(negative, Digits(magnitude)) == if -0x8000_0000 <= v < 0x8000_0000 then Some(v) else None
  {
    var digits := Digits(magnitude);
    DigitsShape(magnitude);
    AllDigitsLead(digits);
    assert digits[..|digits|] == digits;
  }

  lemma ToStringInjective(n: nat, m: nat)
    requires ToString(n) == ToString(m)
    ensures n == m
  {
    DigitsShape(n);
    DigitsShape(m);
  }

  // ---------------------------------------------------------------- paths

  const GROUP_SIZE := 1000

  function IndexOf(s: string, c: char): Option<nat> {
    if |s| == 0 then None
    else if s[0] == c then Some(0)
    else
      match IndexOf(s[1..], c)
      case None => None
      case Some(k) => Some(k + 1)
  }

  /** Division and remainder that round toward zero. */
  function TruncDiv(a: int, b: nat): int
    requires b > 0
  {
    if a >= 0 then a / b else -((-a) / b)
  }

  function TruncMod(a: int, b: nat): int
    requires b > 0
  {
    if a >= 0 then a % b else -((-a) % b)
  }

  function BasePath(root: string, nodeId: string): string {
    if nodeId != "" then root + "/" + nodeId else root
  }

  function LeafDir(base: string, n: int): string {
    base + "/" + ToString(TruncDiv(n, GROUP_SIZE * GROUP_SIZE)) + "/" + ToString(TruncMod(TruncDiv(n, GROUP_SIZE), GROUP_SIZE))
  }

  function ChunkFile(base: string, n: int): string {
    LeafDir(base, n) + "/" + (ToString(n) + ".cfile")
  }

  /** The path of a chunk's file; None if its number cannot be parsed. Other names are paths themselves. */
  function GetChunkPath(chunkId: string, root: string, nodeId: string): Option<string> {
    match IndexOf(chunkId, '_')
    case None => Some(chunkId)
    case Some(pos) =>
      PosInRange(chunkId, '_');
      if chunkId[..pos] != "chunk" then Some(chunkId)
      else
        match Stoi(chunkId[pos + 1..])
        case None => None
        case Some(n) => Some(ChunkFile(BasePath(root, nodeId), n))
  }

  lemma {:induction false} PosInRange(s: string, c: char)
    ensures IndexOf(s, c).Some? ==> IndexOf(s, c).value < |s| && s[IndexOf(s, c).value] == c
  {
    if |s| > 0 && s[0] != c {
      PosInRange(s[1..], c);
    }
  }

  /** The name the coordinator gives chunk `n`. */
  function ChunkName(n: ChunkId): string {
    "chunk_" + ToString(n)
  }

  /** What follows the first underscore of a chunk's name is read as its number, or the path cannot be had. */
  lemma ChunkTextPath(text: string, root: string, nodeId: string)
    ensures GetChunkPath("chunk_" + text, root, nodeId) ==
            match Stoi(text)
            case None => None
            case Some(n) => Some(ChunkFile(BasePath(root, nodeId), n))
  {
    var name := "chunk_" + text;
    assert name[1..] == "hunk_" + text;
    assert name[1..][1..] == "unk_" + text;
    assert name[1..][1..][1..] == "nk_" + text;
    assert name[1..][1..][1..][1..] == "k_" + text;
    assert name[1..][1..][1..][1..][1..] == "_" + text;
    assert IndexOf("_" + text, '_') == Some(0);
    assert IndexOf("k_" + text, '_') == Some(1);
    assert IndexOf("nk_" + text, '_') == Some(2);
    assert IndexOf("unk_" + text, '_') == Some(3);
    assert IndexOf("hunk_" + text, '_') == Some(4);
    assert IndexOf(name, '_') == Some(5);
    assert name[..5] == "chunk" && name[6..] == text;
  }

  /** The data node recovers a chunk's number from its name as long as it fits 32 bits; beyond, it fails. */
  lemma ChunkNamePath(n: ChunkId, root: string, nodeId: string)
    ensures GetChunkPath(ChunkName(n), root, nodeId) ==
            if n < 0x8000_0000 then Some(ChunkFile(BasePath(root, nodeId), n)) else None
  {
    ChunkTextPath(ToString(n), root, nodeId);
    StoiOfString(n);
  }

  predicate NoSlash(s: string) {
    forall i :: 0 <= i < |s| ==> s[i] != '/'
  }

  lemma NumberHasNoSlash(n: nat)
    ensures NoSlash(ToString(n))
  {
    DigitsShape(n);
  }

  lemma LastComponent(a: string, x: string, b: string, y: string)
    requires a + "/" + x == b + "/" + y && NoSlash(x) && NoSlash(y)
    ensures a == b && x == y
  {
    var s := a + "/" + x;
    NothingAfterLastSlash(a, x);
    NothingAfterLastSlash(b, y);
    assert s[|a|] == '/' && s[|b|] == '/';
    assert |a| == |b|;
    assert s[..|a|] == a && s[..|b|] == b;
    assert s[|a| + 1..] == x && s[|b| + 1..] == y;
  }

  lemma NothingAfterLastSlash(a: string, x: string)
    requires NoSlash(x)
    ensures var s := a + "/" + x; forall p :: |a| < p < |s| ==> s[p] != '/'
  {
  }

  /** A chunk's leaf directory is shared by exactly the thousand numbers of its block. */
  lemma LeafDirsExactly(base: string, n: nat, m: nat)
    ensures var first := n / GROUP_SIZE * GROUP_SIZE;
            LeafDir(base, n) == LeafDir(base, m) <==> first <= m < first + GROUP_SIZE
  {
    var n3, m3 := n / 1000000, m / 1000000;
    var n2, m2 := n / 1000 % 1000, m / 1000 % 1000;
    Levels(n);
    Levels(m);
    if LeafDir(base, n) == LeafDir(base, m) {
      NumberHasNoSlash(n2);
      NumberHasNoSlash(m2);
      LastComponent(base + "/" + ToString(n3), ToString(n2), base + "/" + ToString(m3), ToString(m2));
      NumberHasNoSlash(n3);
      NumberHasNoSlash(m3);
      LastComponent(base, ToString(n3), base, ToString(m3));
      ToStringInjective(n2, m2);
      ToStringInjective(n3, m3);
    }
  }

  lemma Levels(n: nat)
    ensures n / 1000 == n / 1000000 * 1000 + n / 1000 % 1000
  {
  }

  lemma SameFileSameNumber(base: string, n: nat, m: nat)
    requires ChunkFile(base, n) == ChunkFile(base, m)
    ensures n == m
  {
    var a, b := ToString(n), ToString(m);
    NumberHasNoSlash(n);
    NumberHasNoSlash(m);
    LastComponent(LeafDir(base, n), a + ".cfile", LeafDir(base, m), b + ".cfile");
    assert (a + ".cfile")[..|a|] == a && (b + ".cfile")[..|b|] == b;
    ToStringInjective(n, m);
  }

  /** Different chunks have different files under one configuration, so a file tells its chunk. */
  lemma ChunkFilesDistinct(root: string, nodeId: string, n: ChunkId, m: ChunkId)
    requires n < 0x8000_0000 && m < 0x8000_0000
    ensures GetChunkPath(ChunkName(n), root, nodeId) == GetChunkPath(ChunkName(m), root, nodeId) <==> n == m
  {
    ChunkNamePath(n, root, nodeId);
    ChunkNamePath(m, root, nodeId);
    var base := BasePath(root, nodeId);
    if ChunkFile(base, n) == ChunkFile(base, m) {
      SameFileSameNumber(base, n, m);
    }
  }

  // ---------------------------------------------------------------- the exact path

  /** The ten digits, and how numbers grow by them. */
  lemma DigitsAre(n: nat)
    ensures ToString(0) == "0" && ToString(1) == "1" && ToString(2) == "2" && ToString(3) == "3" && ToString(4) == "4"
    ensures ToString(5) == "5" && ToString(6) == "6" && ToString(7) == "7" && ToString(8) == "8" && ToString(9) == "9"
    ensures n >= 10 ==> ToString(n) == ToString(n / 10) + ToString(n % 10)
    ensures n > 0 ==> ToString(0 - n) == "-" + ToString(n)
  {
    assert forall d: nat :: d < 10 ==> ToString(d) == [DigitChar(d)];
    if n >= 10 {
      assert Digits(n) == Digits(n / 10) + Digits(n % 10);
    }
  }

  /** The root comes first, then the node's own directory if it has a name. */
  lemma BasePathIs(root: string, nodeId: string)
    ensures BasePath(root, "") == root
    ensures nodeId != "" ==> BasePath(root, nodeId) == root + "/" + nodeId
  {
  }

  /**
   The path of a chunk, level by level: below the base directory one named by the number's millions,
   below that one named by its thousands modulo a thousand, and there the file named by the number.
   Every level reads back as its number.
   */
  lemma ChunkPathLevels(n: nat, root: string, nodeId: string) returns (x: string, y: string, z: string)
    requires n < 0x8000_0000
    ensures GetChunkPath("chunk_" + ToString(n), root, nodeId) ==
            Some((if nodeId == "" then root else root + "/" + nodeId) + "/" + x + "/" + y + "/" + z + ".cfile")
    ensures NoSlash(x) && NoSlash(y) && NoSlash(z)
    ensures Stoi(x) == Some(n / 1000000) && Stoi(y) == Some(n / 1000 % 1000) && Stoi(z) == Some(n)
  {
    x, y, z := ToString(n / 1000000), ToString(n / 1000 % 1000), ToString(n);
    NumberHasNoSlash(n / 1000000);
    NumberHasNoSlash(n / 1000 % 1000);
    NumberHasNoSlash(n);
    StoiOfString(n / 1000000);
    StoiOfString(n / 1000 % 1000);
    StoiOfString(n);
    ChunkNamePath(n, root, nodeId);
    var base := BasePath(root, nodeId);
    assert ChunkFile(base, n) == base + "/" + x + "/" + y + "/" + z + ".cfile";
  }

  /** The directory above the leaf, shared by exactly the million numbers of its block. */
  lemma UpperDirsExactly(base: string, n: nat, m: nat)
    requires n < 0x8000_0000 && m < 0x8000_0000
    ensures base + "/" + ToString(TruncDiv(n, GROUP_SIZE * GROUP_SIZE)) == base + "/" + ToString(TruncDiv(m, GROUP_SIZE * GROUP_SIZE))
            <==> n / 1000000 == m / 1000000
  {
    NumberHasNoSlash(n / 1000000);
    NumberHasNoSlash(m / 1000000);
    if base + "/" + ToString(n / 1000000) == base + "/" + ToString(m / 1000000) {
      LastComponent(base, ToString(n / 1000000), base, ToString(m / 1000000));
      ToStringInjective(n / 1000000, m / 1000000);
    }
  }

  /** A number below zero has its levels rounded toward zero, with its sign. */
  lemma NegativeLevels(base: string, n: nat)
    requires 0 < n <= 0x8000_0000
    ensures ChunkFile(base, 0 - n) == base + "/" + ToString(0 - n / 1000000) + "/" + ToString(0 - n / 1000 % 1000) + "/" + ToString(0 - n) + ".cfile"
  {
    assert ChunkFile(base, 0 - n) == base + "/" + ToString(TruncDiv(0 - n, 1000000)) + "/" + ToString(TruncMod(TruncDiv(0 - n, 1000), 1000)) + "/" + ToString(0 - n) + ".cfile";
  }

  lemma {:induction false} FirstIndex(s: string, c: char)
    ensures match IndexOf(s, c)
            case None => forall i :: 0 <= i < |s| ==> s[i] != c
            case Some(k) => k < |s| && s[k] == c && forall i :: 0 <= i < k ==> s[i] != c
  {
    if |s| > 0 && s[0] != c {
      FirstIndex(s[1..], c);
      assert forall i :: 0 <= i < |s| - 1 ==> s[1..][i] == s[i + 1];
    }
  }

  /** A name that does not read "chunk" before its first underscore is a path itself. */
  lemma OtherNamesArePaths(name: string, root: string, nodeId: string)
    requires !("chunk_" <= name)
    ensures GetChunkPath(name, root, nodeId) == Some(name)
  {
    FirstIndex(name, '_');
    if IndexOf(name, '_').Some? && name[..IndexOf(name, '_').value] == "chunk" {
      ChunkPrefix(name, IndexOf(name, '_').value);
    }
  }

  lemma ChunkPrefix(name: string, k: nat)
    requires k < |name| && name[k] == '_' && name[..k] == "chunk"
    ensures "chunk_" <= name
  {
    assert name[..k + 1] == name[..k] + [name[k]];
  }

  lemma {:induction false} BlanksSkipped(blanks: string, s: string)
    requires forall i :: 0 <= i < |blanks| ==> blanks[i] == ' ' || '\t' <= blanks[i] <= '\r'
    requires s == "" || !(s[0] == ' ' || '\t' <= s[0] <= '\r')
    ensures SkipSpaces(blanks + s) == s
  {
    if |blanks| > 0 {
      BlanksSkipped(blanks[1..], s);
      assert (blanks + s)[1..] == blanks[1..] + s;
    } else {
      assert blanks + s == s;
    }
  }

  lemma {:induction false} DigitsBeforeRest(digits: string, rest: string)
    requires forall i :: 0 <= i < |digits| ==> IsDigit(digits[i])
    requires rest == "" || !IsDigit(rest[0])
    ensures LeadingDigits(digits + rest) == |digits|
  {
    if |digits| > 0 {
      DigitsBeforeRest(digits[1..], rest);
      assert (digits + rest)[1..] == digits[1..] + rest;
    } else {
      assert digits + rest == rest;
    }
  }

  lemma SignedReads(negative: bool, n: nat, rest: string)
    requires rest == "" || !IsDigit(rest[0])
    ensures Signed(negative, Digits(n) + rest) == Signed(negative, Digits(n))
  {
    DigitsShape(n);
    DigitsBeforeRest(Digits(n), rest);
    AllDigitsLead(Digits(n));
    assert (Digits(n) + rest)[..|Digits(n)|] == Digits(n);
    assert Digits(n)[..|Digits(n)|] == Digits(n);
  }

  lemma SignTaken(blanks: string, sign: string, body: string)
    requires forall i :: 0 <= i < |blanks| ==> blanks[i] == ' ' || '\t' <= blanks[i] <= '\r'
    requires sign == "" || sign == "+" || sign == "-"
    requires body != "" && IsDigit(body[0])
    ensures Stoi(blanks + (sign + body)) == Signed(sign == "-", body)
  {
    var t := sign + body;
    assert t[0] == if sign == "" then body[0] else sign[0];
    BlanksSkipped(blanks, t);
    if sign == "" {
      assert t == body;
    } else {
      assert t[1..] == body;
    }
  }

  /**
   The conversion in full: blanks before the number and anything that is no digit after it do not
   matter, a sign may stand before it, and a number that does not fit 32 bits is an error.
   */
  lemma StoiReads(blanks: string, sign: string, n: nat, rest: string)
    requires forall i :: 0 <= i < |blanks| ==> blanks[i] == ' ' || '\t' <= blanks[i] <= '\r'
    requires sign == "" || sign == "+" || sign == "-"
    requires rest == "" || !('0' <= rest[0] <= '9')
    ensures var v: int := if sign == "-" then 0 - n else n;
            Stoi(blanks + (sign + (ToString(n) + rest))) == if -0x8000_0000 <= v < 0x8000_0000 then Some(v) else None
  {
    DigitsShape(n);
    SignTaken(blanks, sign, ToString(n) + rest);
    SignedReads(sign == "-", n, rest);
    SignedDigits(sign == "-", n);
  }

  /** Without a digit after blanks and sign there is no number. */
  lemma StoiNeedsDigits(blanks: string, sign: string, rest: string)
    requires forall i :: 0 <= i < |blanks| ==> blanks[i] == ' ' || '\t' <= blanks[i] <= '\r'
    requires sign == "+" || sign == "-" || (sign == "" && (rest == "" || !(rest[0] in {' ', '+', '-'} || '\t' <= rest[0] <= '\r')))
    requires rest == "" || !('0' <= rest[0] <= '9')
    ensures Stoi(blanks + (sign + rest)) == None
  {
    var t := sign + rest;
    if sign == "" {
      assert t == rest;
    } else {
      assert t[0] == sign[0] && t[1..] == rest;
    }
    BlanksSkipped(blanks, t);
  }
}
