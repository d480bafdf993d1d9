/**
 The ar archive behind the .deb package, and a reader that undoes the writer.

 Bytes are integers 0..255; a file name is text that `encode("ascii")` turns into bytes or
 refuses.  The reader is not in the repository: it says what the written bytes mean.
 */
module ArArchive {
  import opened Basics

  type byte = b: int | 0 <= b < 256

  const SPACE: byte := 32
  const SLASH: byte := 47
  const NEWLINE: byte := 10
  const MAGIC: seq<byte> := [33, 60, 97, 114, 99, 104, 62, 10]
  const TRAILER: seq<byte> := [96, 10]

  // ----- Numbers in text -----

  predicate AllDigits(s: seq<byte>) {
    forall i :: 0 <= i < |s| ==> 48 <= s[i] < 58
  }

  function Digits(n: nat): (s: seq<byte>)
    ensures |s| >= 1 && AllDigits(s)
  {
    if n < 10 then [48 + n] else Digits(n / 10) + [48 + n % 10]
  }

  /** `{mode:o}`. */
  function OctalDigits(n: nat): seq<byte> {
    if n < 8 then [48 + n] else OctalDigits(n / 8) + [48 + n % 8]
  }

  function Number(s: seq<byte>): nat
    requires AllDigits(s)
  {
    if s == [] then 0
    else
      assert forall i :: 0 <= i < |s| - 1 ==> s[..|s| - 1][i] == s[i];
      var last: int := s[|s| - 1];
      Number(s[..|s| - 1]) * 10 + (last - 48)
  }

  lemma {:induction false} NumberOfDigits(n: nat)
    ensures Number(Digits(n)) == n
  {
    if n >= 10 {
      NumberOfDigits(n / 10);
      assert Digits(n)[..|Digits(n)| - 1] == Digits(n / 10);
    }
  }

  function Pow10(k: nat): (p: nat)
    ensures p > 0
  {
    if k == 0 then 1 else 10 * Pow10(k - 1)
  }

  lemma {:induction false} Pow10Grows(k: nat)
    ensures k > 0 ==> Pow10(k) >= 10
  {
    if k > 1 {
      Pow10Grows(k - 1);
    }
  }

  lemma {:induction false} DigitsFit(n: nat, k: nat)
    requires k > 0
    ensures |Digits(n)| <= k <==> n < Pow10(k)
  {
    if k == 1 {
      assert Pow10(1) == 10 * Pow10(0) == 10;
    } else if n >= 10 {
      DigitsFit(n / 10, k - 1);
      assert Pow10(k) == 10 * Pow10(k - 1);
    } else {
      Pow10Grows(k);
    }
  }

  // ----- Header -----

  function Spaces(n: nat): (s: seq<byte>)
    ensures |s| == n && forall b :: b in s ==> b == SPACE
  {
    if n == 0 then [] else [SPACE] + Spaces(n - 1)
  }

  /** `{field:<width}`: padded with spaces, never cut. */
  function Padded(field: seq<byte>, width: nat): (s: seq<byte>)
    ensures |s| == if |field| < width then width else |field|
  {
    if |field| < width then field + Spaces(width - |field|) else field
  }

  predicate IsAscii(name: string) {
    forall i :: 0 <= i < |name| ==> name[i] as int < 128
  }

  function Encoded(name: string): (s: seq<byte>)
    requires IsAscii(name)
  {
    seq(|name|, i requires 0 <= i < |name| => name[i] as int)
  }

  function Decoded(s: seq<byte>): (name: string)
    requires forall i :: 0 <= i < |s| ==> s[i] < 128
  {
    seq(|s|, i requires 0 <= i < |s| => s[i] as char)
  }

  datatype Meta = Meta(mtime: nat, owner: nat, group: nat, mode: nat)

  /** The defaults of `make_ar_header`; 33188 is octal 100644. */
  const DEFAULTS := Meta(1718000000, 0, 0, 33188)

  /** The four middle fields, which `make_ar_archive` never varies. */
  function Middle(meta: Meta): seq<byte> {
    Padded(Digits(meta.mtime), 12) + Padded(Digits(meta.owner), 6) + Padded(Digits(meta.group), 6)
    + Padded(OctalDigits(meta.mode), 8)
  }

  function Header(name: string, size: nat, middle: seq<byte>): seq<byte>
    requires IsAscii(name)
  {
    Padded(Encoded(name) + [SLASH], 16) + middle + Padded(Digits(size), 10) + TRAILER
  }

  /** The four fields when each fits its width. */
  type FittingMiddle = m: seq<byte> | |m| == 32 witness Spaces(32)

  lemma DefaultsFit()
    ensures |Middle(DEFAULTS)| == 32
  {
    DigitsFit(DEFAULTS.mtime, 12);
    assert Pow10(12) == 1_000_000_000_000;
  }

  /** A header is 60 bytes exactly when its name and its size fit their fields. */
  lemma HeaderLengthIff(name: string, size: nat, middle: FittingMiddle)
    requires IsAscii(name)
    ensures |Header(name, size, middle)| >= 60
    ensures |Header(name, size, middle)| == 60 <==> |name| <= 15 && size < 10_000_000_000
  {
    DigitsFit(size, 10);
    assert Pow10(10) == 10_000_000_000;
  }

  // ----- The writer -----

  datatype File = File(name: string, data: seq<byte>)

  /** A file whose name `encode` accepts. */
  type AsciiFile = f: File | IsAscii(f.name) witness File("", [])

  /** A file whose name and size also fit the fields of its header. */
  type FittingFile = f: File | IsAscii(f.name) && |f.name| <= 15 && |f.data| < 10_000_000_000 witness File("", [])

  predicate AllAscii(files: seq<File>) {
    forall i :: 0 <= i < |files| ==> IsAscii(files[i].name)
  }

  function PadByte(data: seq<byte>): seq<byte> {
    if |data| % 2 != 0 then [NEWLINE] else []
  }

  function Member(f: AsciiFile, middle: seq<byte>): seq<byte> {
    Header(f.name, |f.data|, middle) + f.data + PadByte(f.data)
  }

  function Joined(parts: seq<seq<byte>>): seq<byte> {
    if parts == [] then [] else parts[0] + Joined(parts[1..])
  }

  function Parts(files: seq<AsciiFile>, middle: seq<byte>): (parts: seq<seq<byte>>)
    ensures |parts| == |files| && forall i :: 0 <= i < |files| ==> parts[i] == Member(files[i], middle)
  {
    seq(|files|, i requires 0 <= i < |files| => Member(files[i], middle))
  }

  function Members(files: seq<AsciiFile>, middle: seq<byte>): seq<byte> {
    Joined(Parts(files, middle))
  }

  lemma {:induction false} JoinedSplit(parts: seq<seq<byte>>, k: nat)
    requires k <= |parts|
    ensures Joined(parts) == Joined(parts[..k]) + Joined(parts[k..])
    decreases k
  {
    if k > 0 {
      JoinedSplit(parts[1..], k - 1);
      assert parts[1..][..k - 1] == parts[..k][1..] && parts[1..][k - 1..] == parts[k..];
    }
  }

  lemma MembersSplit(files: seq<AsciiFile>, k: nat, middle: seq<byte>)
    requires k <= |files|
    ensures Members(files, middle) == Members(files[..k], middle) + Members(files[k..], middle)
  {
    JoinedSplit(Parts(files, middle), k);
    assert Parts(files, middle)[..k] == Parts(files[..k], middle)
           && Parts(files, middle)[k..] == Parts(files[k..], middle);
  }

  lemma MembersOneMore(files: seq<AsciiFile>, f: AsciiFile, middle: seq<byte>)
    ensures Members(files + [f], middle) == Members(files, middle) + Member(f, middle)
  {
    var all := Parts(files + [f], middle);
    assert all[..|files|] == Parts(files, middle) && all[|files|..] == [Member(f, middle)];
    JoinedSplit(all, |files|);
    assert [Member(f, middle)][1..] == [];
  }

  lemma MembersOneLess(files: seq<AsciiFile>, middle: seq<byte>)
    requires files != []
    ensures Members(files, middle) == Member(files[0], middle) + Members(files[1..], middle)
  {
    assert Parts(files, middle)[1..] == Parts(files[1..], middle);
  }

  /** Raised by `encode` for a name that is not ASCII; nothing is returned then. */
  datatype EncodeError = NotAscii(name: string)

  lemma Regroup(a: seq<byte>, b: seq<byte>, c: seq<byte>)
    ensures a + b + c == a + (b + c)
  {
  }

  /** One turn of the loop: the header, the data and the pad byte make up the next member. */
  lemma WritesOneMore(before: seq<byte>, done: seq<AsciiFile>, f: AsciiFile, middle: seq<byte>)
    requires before == MAGIC + Members(done, middle)
    ensures before + Header(f.name, |f.data|, middle) + f.data + PadByte(f.data) == MAGIC + Members(done + [f], middle)
  {
    MembersOneMore(done, f, middle);
    var h := Header(f.name, |f.data|, middle);
    Regroup(before, h + f.data, PadByte(f.data));
    Regroup(before, h, f.data);
    Regroup(MAGIC, Members(done, middle), Member(f, middle));
  }

  /** The body of the writer's loop. */
  method WriteMember(before: seq<byte>, ghost done: seq<AsciiFile>, f: AsciiFile, middle: seq<byte>)
    returns (out: seq<byte>)
    requires before == MAGIC + Members(done, middle)
    ensures out == MAGIC + Members(done + [f], middle)
  {
    WritesOneMore(before, done, f, middle);
    var size := |f.data|;
    out := before + Header(f.name, size, middle);
    out := out + f.data;
    if size % 2 != 0 {
      out := out + [NEWLINE];
    }
  }

  method WriteArchive(files: seq<File>, middle: seq<byte>) returns (r: Result<seq<byte>, EncodeError>)
    ensures r.Ok? <==> AllAscii(files)
    ensures r.Ok? ==> r.value == MAGIC + Members(files, middle)
  {
    var out := MAGIC;
    var i := 0;
    ghost var done: seq<AsciiFile> := [];
    while i < |files|
      invariant 0 <= i <= |files| && done == files[..i]
      invariant out == MAGIC + Members(done, middle)
    {
      if !IsAscii(files[i].name) {
        return Err(NotAscii(files[i].name));
      }
      out := WriteMember(out, done, files[i], middle);
      done, i := done + [files[i]], i + 1;
    }
    assert done == files;
    return Ok(out);
  }

  /** `make_ar_archive`, whose headers carry the default fields. */
  method MakeArArchive(files: seq<File>) returns (r: Result<seq<byte>, EncodeError>)
    ensures r.Ok? <==> AllAscii(files)
    ensures r.Ok? ==> r.value == MAGIC + Members(files, Middle(DEFAULTS))
  {
    r := WriteArchive(files, Middle(DEFAULTS));
  }

  // ----- What the bytes are, character by character -----

  lemma TimesMonotone(a: nat, b: nat, p: nat)
    requires a <= b
    ensures a * p <= b * p
  {
  }

  lemma QuotientIs(n: nat, d: nat, q: nat, r: nat)
    requires d > 0 && n == q * d + r && r < d
    ensures n / d == q
  {
    if n / d < q {
      TimesMonotone(n / d + 1, q, d);
      assert false;
    }
    if q < n / d {
      TimesMonotone(q + 1, n / d, d);
      assert false;
    }
  }

  /** Dividing by ten and then by `p` is dividing by both at once. */
  lemma DivideTwice(n: nat, p: nat)
    requires p > 0
    ensures n / (10 * p) == n / 10 / p
  {
    var q := n / 10 / p;
    assert n / 10 == q * p + n / 10 % p;
    assert n == 10 * (q * p) + (10 * (n / 10 % p) + n % 10);
    assert 10 * (q * p) == q * (10 * p);
    QuotientIs(n, 10 * p, q, 10 * (n / 10 % p) + n % 10);
  }

  /** A decimal number is written with its most significant digit first. */
  lemma {:induction false} DigitsAre(n: nat, i: nat)
    requires i < |Digits(n)|
    ensures var d: int := Digits(n)[i]; d - 48 == n / Pow10(|Digits(n)| - 1 - i) % 10
    ensures n >= 10 ==> Digits(n)[0] != 48
  {
    if n >= 10 {
      var k := |Digits(n / 10)|;
      DigitsAre(n / 10, if i < k then i else 0);
      if i < k {
        assert Pow10(k - i) == 10 * Pow10(k - 1 - i);
        DivideTwice(n, Pow10(k - 1 - i));
      }
    }
  }

  lemma PaddedIs(field: seq<byte>, width: nat, i: nat)
    requires |field| <= width && i < width
    ensures Padded(field, width)[i] == if i < |field| then field[i] else ' ' as int
  {
    if |field| <= i {
      assert Padded(field, width)[i] == Spaces(width - |field|)[i - |field|];
      assert Spaces(width - |field|)[i - |field|] in Spaces(width - |field|);
    }
  }

  predicate Spells(bytes: seq<byte>, text: string) {
    |bytes| == |text| && forall i :: 0 <= i < |bytes| ==> bytes[i] == text[i] as int
  }

  lemma OneMoreDigit(n: nat, d: nat, text: string)
    requires n > 0 && d < 10 && Spells(Digits(n), text)
    ensures Spells(Digits(10 * n + d), text + ['0' + d as char])
  {
    assert Digits(10 * n + d) == Digits(n) + [48 + d];
  }

  lemma OneMoreOctalDigit(n: nat, d: nat, text: string)
    requires n > 0 && d < 8 && Spells(OctalDigits(n), text)
    ensures Spells(OctalDigits(8 * n + d), text + ['0' + d as char])
  {
    assert OctalDigits(8 * n + d) == OctalDigits(n) + [48 + d];
  }

  lemma TimeText()
    ensures Spells(Digits(1718000000), "1718000000")
  {
    OneMoreDigit(1, 7, "1");
    OneMoreDigit(17, 1, "17");
    OneMoreDigit(171, 8, "171");
    OneMoreDigit(1718, 0, "1718");
    OneMoreDigit(17180, 0, "17180");
    OneMoreDigit(171800, 0, "171800");
    OneMoreDigit(1718000, 0, "1718000");
    OneMoreDigit(17180000, 0, "17180000");
    OneMoreDigit(171800000, 0, "171800000");
  }

  lemma ModeText()
    ensures Spells(OctalDigits(33188), "100644")
  {
    OneMoreOctalDigit(1, 0, "1");
    OneMoreOctalDigit(8, 0, "10");
    OneMoreOctalDigit(64, 6, "100");
    OneMoreOctalDigit(518, 4, "1006");
    OneMoreOctalDigit(4148, 4, "10064");
  }

  lemma PaddedSpells(field: seq<byte>, text: string, width: nat, padded: string)
    requires Spells(field, text) && |field| <= width == |padded| && padded[..|field|] == text
    requires forall i :: |field| <= i < width ==> padded[i] == ' '
    ensures Spells(Padded(field, width), padded)
  {
    forall i | 0 <= i < width ensures Padded(field, width)[i] == padded[i] as int {
      PaddedIs(field, width, i);
      assert i < |field| ==> padded[i] == padded[..|field|][i];
    }
  }

  lemma TimeField()
    ensures Spells(Padded(Digits(1718000000), 12), "1718000000  ")
  {
    TimeText();
    PaddedSpells(Digits(1718000000), "1718000000", 12, "1718000000  ");
  }

  lemma IdField()
    ensures Spells(Padded(Digits(0), 6), "0     ")
  {
    PaddedSpells(Digits(0), "0", 6, "0     ");
  }

  lemma ModeField()
    ensures Spells(Padded(OctalDigits(33188), 8), "100644  ")
  {
    ModeText();
    PaddedSpells(OctalDigits(33188), "100644", 8, "100644  ");
  }

  lemma JoinedSpells(a: seq<byte>, s: string, b: seq<byte>, t: string)
    requires Spells(a, s) && Spells(b, t)
    ensures Spells(a + b, s + t)
  {
  }

  lemma FourSpell(a: seq<byte>, s: string, b: seq<byte>, t: string, c: seq<byte>, u: string, d: seq<byte>, v: string)
    requires Spells(a, s) && Spells(b, t) && Spells(c, u) && Spells(d, v)
    ensures Spells(a + b + c + d, s + t + u + v)
  {
    JoinedSpells(a, s, b, t);
    JoinedSpells(a + b, s + t, c, u);
    JoinedSpells(a + b + c, s + t + u, d, v);
  }

  lemma MiddleLiteral()
    ensures "1718000000  " + "0     " + "0     " + "100644  " == "1718000000  0     0     100644  "
  {
  }

  /** The time stamp, owner, group and mode that every header carries; the mode is octal. */
  lemma DefaultMiddleText()
    ensures Spells(Middle(DEFAULTS), "1718000000  0     0     100644  ")
  {
    TimeField();
    IdField();
    ModeField();
    MiddleLiteral();
    var time, id, mode := Padded(Digits(1718000000), 12), Padded(Digits(0), 6), Padded(OctalDigits(33188), 8);
    FourSpell(time, "1718000000  ", id, "0     ", id, "0     ", mode, "100644  ");
  }

  /** The texts that never vary. */
  lemma FixedTexts()
    ensures |MAGIC| == 8 && forall i :: 0 <= i < 8 ==> MAGIC[i] == "!<arch>\n"[i] as int
    ensures |TRAILER| == 2 && TRAILER[0] == '`' as int && TRAILER[1] == '\n' as int
    ensures PadByte([]) == [] && PadByte([0]) == ['\n' as int]
  {
  }

  lemma HeaderAt(name: string, size: nat, middle: FittingMiddle, i: nat)
    requires IsAscii(name) && |name| <= 15 && size < 10_000_000_000 && i < 60
    ensures var h, digits := Header(name, size, middle), Digits(size);
            && |h| == 60 && 1 <= |digits| <= 10
            && h[i] == if i < |name| then name[i] as int
                       else if i == |name| then '/' as int
                       else if i < 16 then ' ' as int
                       else if i < 48 then middle[i - 16]
                       else if i < 48 + |digits| then digits[i - 48]
                       else if i < 58 then ' ' as int
                       else if i == 58 then '`' as int
                       else '\n' as int
  {
    HeaderLengthIff(name, size, middle);
    DigitsFit(size, 10);
    assert Pow10(10) == 10_000_000_000;
    if i < 16 {
      PaddedIs(Encoded(name) + [SLASH], 16, i);
    } else if 48 <= i < 58 {
      PaddedIs(Digits(size), 10, i - 48);
    }
  }

  /**
   A header that fits, byte by byte: the name and a slash, the fixed fields, and the size in
   decimal, each filled up with blanks, and the two closing characters.
   */
  lemma HeaderText(name: string, size: nat, i: nat)
    requires IsAscii(name) && |name| <= 15 && size < 10_000_000_000 && i < 60
    ensures var h, digits := Header(name, size, Middle(DEFAULTS)), Digits(size);
            var middle := "1718000000  0     0     100644  ";
            && |h| == 60 && 1 <= |digits| <= 10
            && h[i] == if i < |name| then name[i] as int
                       else if i == |name| then '/' as int
                       else if i < 16 then ' ' as int
                       else if i < 48 then middle[i - 16] as int
                       else if i < 48 + |digits| then digits[i - 48]
                       else if i < 58 then ' ' as int
                       else if i == 58 then '`' as int
                       else '\n' as int
  {
    DefaultMiddleText();
    HeaderAt(name, size, Middle(DEFAULTS), i);
  }

  // ----- The reader -----

  function Stripped(s: seq<byte>): seq<byte> {
    if s != [] && s[|s| - 1] == SPACE then Stripped(s[..|s| - 1]) else s
  }

  lemma SpacesInit(n: nat)
    requires n > 0
    ensures Spaces(n)[..n - 1] == Spaces(n - 1)
  {
    forall i | 0 <= i < n - 1 ensures Spaces(n)[i] == Spaces(n - 1)[i] {
      assert Spaces(n)[i] in Spaces(n) && Spaces(n - 1)[i] in Spaces(n - 1);
    }
  }

  lemma {:induction false} StrippedPadded(field: seq<byte>, n: nat)
    requires field != [] && field[|field| - 1] != SPACE
    ensures Stripped(field + Spaces(n)) == field
  {
    if n == 0 {
      assert field + Spaces(0) == field;
    } else {
      var s := field + Spaces(n);
      assert Spaces(n)[n - 1] in Spaces(n);
      assert s[|s| - 1] == SPACE;
      assert s[..|s| - 1] == field + Spaces(n - 1) by {
        SpacesInit(n);
      }
      StrippedPadded(field, n - 1);
    }
  }

  /** A name field: the text before its last slash, which nothing but padding may follow. */
  function ReadName(field: seq<byte>): Option<string> {
    var s := Stripped(field);
    if s == [] || s[|s| - 1] != SLASH || exists i :: 0 <= i < |s| && s[i] >= 128 then None
    else Some(Decoded(s[..|s| - 1]))
  }

  function ReadSize(field: seq<byte>): Option<nat> {
    var s := Stripped(field);
    if s == [] || !AllDigits(s) then None else Some(Number(s))
  }

  function ReadMembers(bytes: seq<byte>): Option<seq<File>>
    decreases |bytes|
  {
    if bytes == [] then Some([])
    else if |bytes| < 60 || bytes[58..60] != TRAILER then None
    else
      var name, size := ReadName(bytes[..16]), ReadSize(bytes[48..58]);
      if name == None || size == None then None
      else
        var end := 60 + size.value;
        var next := end + size.value % 2;
        if next > |bytes| then None
        else
          match ReadMembers(bytes[next..])
          case None => None
          case Some(rest) => Some([File(name.value, bytes[60..end])] + rest)
  }

  function ReadArchive(bytes: seq<byte>): Option<seq<File>> {
    if |bytes| < 8 || bytes[..8] != MAGIC then None else ReadMembers(bytes[8..])
  }

  lemma NameReadsBack(name: string)
    requires IsAscii(name) && |name| <= 15
    ensures ReadName(Padded(Encoded(name) + [SLASH], 16)) == Some(name)
  {
    var field := Encoded(name) + [SLASH];
    StrippedPadded(field, 16 - |field|);
    assert Padded(field, 16) == field + Spaces(16 - |field|);
    assert field[..|field| - 1] == Encoded(name);
    assert Decoded(Encoded(name)) == name;
  }

  lemma SizeReadsBack(size: nat)
    requires size < 10_000_000_000
    ensures ReadSize(Padded(Digits(size), 10)) == Some(size)
  {
    assert Pow10(10) == 10_000_000_000;
    DigitsFit(size, 10);
    var digits := Digits(size);
    StrippedPadded(digits, 10 - |digits|);
    assert Padded(digits, 10) == digits + Spaces(10 - |digits|);
    NumberOfDigits(size);
  }

  /** The fields of a header sit where the reader looks for them. */
  lemma HeaderFields(name: string, size: nat, middle: FittingMiddle)
    requires IsAscii(name) && |name| <= 15 && size < 10_000_000_000
    ensures var h := Header(name, size, middle);
            && |h| == 60
            && h[..16] == Padded(Encoded(name) + [SLASH], 16)
            && h[48..58] == Padded(Digits(size), 10)
            && h[58..60] == TRAILER
  {
    HeaderLengthIff(name, size, middle);
    DigitsFit(size, 10);
    assert Pow10(10) == 10_000_000_000;
  }

  lemma Cuts(h: seq<byte>, data: seq<byte>, pad: seq<byte>, rest: seq<byte>)
    requires |h| == 60
    ensures var bytes := h + data + pad + rest;
            && bytes != []
            && bytes[..16] == h[..16] && bytes[48..58] == h[48..58] && bytes[58..60] == h[58..60]
            && bytes[60..60 + |data|] == data
            && bytes[60 + |data| + |pad|..] == rest
  {
  }

  /** A reader at a member whose header it understands takes that member and goes on behind it. */
  lemma ReadsOneMember(h: seq<byte>, data: seq<byte>, rest: seq<byte>, name: string)
    requires |h| == 60 && ReadName(h[..16]) == Some(name) && ReadSize(h[48..58]) == Some(|data|) && h[58..60] == TRAILER
    requires ReadMembers(rest).Some?
    ensures ReadMembers(h + data + PadByte(data) + rest) == Some([File(name, data)] + ReadMembers(rest).value)
  {
    Cuts(h, data, PadByte(data), rest);
  }

  lemma MemberReadsBack(f: FittingFile, rest: seq<byte>, middle: FittingMiddle)
    requires ReadMembers(rest).Some?
    ensures ReadMembers(Member(f, middle) + rest) == Some([f] + ReadMembers(rest).value)
  {
    HeaderFields(f.name, |f.data|, middle);
    NameReadsBack(f.name);
    SizeReadsBack(|f.data|);
    ReadsOneMember(Header(f.name, |f.data|, middle), f.data, rest, f.name);
  }

  lemma {:induction false} MembersReadBack(files: seq<FittingFile>, middle: FittingMiddle)
    ensures ReadMembers(Members(files, middle)) == Some(files)
  {
    if files != [] {
      MembersReadBack(files[1..], middle);
      MemberReadsBack(files[0], Members(files[1..], middle), middle);
      MembersOneLess(files, middle);
      assert [files[0]] + files[1..] == files;
    }
  }

  /** What the writer writes, the reader reads: the same names and the same bytes, in order. */
  lemma ArchiveRoundTrip(files: seq<FittingFile>, middle: FittingMiddle)
    ensures ReadArchive(MAGIC + Members(files, middle)) == Some(files)
  {
    MembersReadBack(files, middle);
    assert (MAGIC + Members(files, middle))[8..] == Members(files, middle);
  }

  lemma {:induction false} NumberBound(s: seq<byte>)
    requires AllDigits(s)
    ensures Number(s) < Pow10(|s|)
  {
    if s != [] {
      NumberBound(s[..|s| - 1]);
    }
  }

  lemma {:induction false} Pow10Monotone(j: nat, k: nat)
    requires j <= k
    ensures Pow10(j) <= Pow10(k)
  {
    if j < k {
      Pow10Monotone(j, k - 1);
    }
  }

  lemma {:induction false} StrippedNoLonger(s: seq<byte>)
    ensures |Stripped(s)| <= |s|
  {
    if s != [] && s[|s| - 1] == SPACE {
      StrippedNoLonger(s[..|s| - 1]);
    }
  }

  /** Nothing the reader returns exceeds what the fields of a header can hold. */
  lemma {:induction false} ReadFilesFit(bytes: seq<byte>)
    ensures ReadMembers(bytes).Some? ==>
              forall f :: f in ReadMembers(bytes).value ==> |f.name| <= 15 && |f.data| < 10_000_000_000
    decreases |bytes|
  {
    if bytes != [] && ReadMembers(bytes).Some? {
      StrippedNoLonger(bytes[..16]);
      StrippedNoLonger(bytes[48..58]);
      NumberBound(Stripped(bytes[48..58]));
      Pow10Monotone(|Stripped(bytes[48..58])|, 10);
      assert Pow10(10) == 10_000_000_000;
      var size := ReadSize(bytes[48..58]).value;
      ReadFilesFit(bytes[60 + size + size % 2..]);
    }
  }

  /**
   The archive of `make_ar_archive` can be read back, the same names and the same bytes in
   order, exactly when every name has at most 15 characters and every size at most 10 digits.
   */
  lemma ReadsBackIff(files: seq<AsciiFile>)
    ensures ReadArchive(MAGIC + Members(files, Middle(DEFAULTS))) == Some(files)
            <==> forall i :: 0 <= i < |files| ==> |files[i].name| <= 15 && |files[i].data| < 10_000_000_000
  {
    var members := Members(files, Middle(DEFAULTS));
    assert (MAGIC + members)[8..] == members;
    if forall i :: 0 <= i < |files| ==> |files[i].name| <= 15 && |files[i].data| < 10_000_000_000 {
      DefaultsFit();
      ArchiveRoundTrip(files, Middle(DEFAULTS));
    } else {
      ReadFilesFit(members);
    }
  }

  function PaddedSizes(files: seq<File>): nat {
    if files == [] then 0 else 60 + |files[0].data| + |files[0].data| % 2 + PaddedSizes(files[1..])
  }

  lemma MemberLength(f: FittingFile, middle: FittingMiddle)
    ensures |Member(f, middle)| == 60 + |f.data| + |f.data| % 2
  {
    HeaderLengthIff(f.name, |f.data|, middle);
  }

  lemma {:induction false} MembersLength(files: seq<FittingFile>, middle: FittingMiddle)
    ensures |Members(files, middle)| == PaddedSizes(files)
  {
    if files != [] {
      MembersOneLess(files, middle);
      MemberLength(files[0], middle);
      MembersLength(files[1..], middle);
    }
  }

  lemma {:induction false} PaddedSizesEven(files: seq<File>)
    ensures PaddedSizes(files) % 2 == 0
  {
    if files != [] {
      PaddedSizesEven(files[1..]);
    }
  }

  /** The archive is the magic and the padded members; what comes before a member has even length. */
  lemma ArchiveLength(files: seq<FittingFile>, middle: FittingMiddle)
    ensures |MAGIC + Members(files, middle)| == 8 + PaddedSizes(files)
    ensures |MAGIC + Members(files, middle)| % 2 == 0
  {
    MembersLength(files, middle);
    PaddedSizesEven(files);
  }

  /**
   Member `k` starts exactly where the archive of the members before it would end; if those
   fit, that is at an even offset.
   */
  lemma MemberOffset(files: seq<AsciiFile>, k: nat, middle: seq<byte>)
    requires k < |files|
    ensures MAGIC + Members(files, middle)
            == MAGIC + Members(files[..k], middle) + (Member(files[k], middle) + Members(files[k..][1..], middle))
    ensures |middle| == 32 && (forall i :: 0 <= i < k ==> |files[i].name| <= 15 && |files[i].data| < 10_000_000_000) ==>
              |MAGIC + Members(files[..k], middle)| == 8 + PaddedSizes(files[..k])
              && |MAGIC + Members(files[..k], middle)| % 2 == 0
  {
    MembersSplit(files, k, middle);
    MembersOneLess(files[k..], middle);
    Regroup(MAGIC, Members(files[..k], middle), Members(files[k..], middle));
    if |middle| == 32 && forall i :: 0 <= i < k ==> |files[i].name| <= 15 && |files[i].data| < 10_000_000_000 {
      ArchiveLength(files[..k], middle);
    }
  }
}
