/**
 * VISA resource descriptors and the choice of I/O backend made by
 * Driver.initialize (ivi/ivi.py) for a resource given as a string.
 *
 * The descriptor pattern is matched case-insensitively, as Python's `re`
 * does it for a `str` pattern with `re.I`: besides the ASCII case pairs,
 * the dotted capital I (U+0130) and the dotless small i (U+0131) match the
 * letter i, and the long s (U+017F) matches s.  `\s` is the set
 * `str.isspace` accepts; `$` matches at the end or just before one final
 * newline.
 */
module ResourceLocator {
  import opened Errors
  import Decimal

  /** The four resource types the pattern names. */
  datatype ResType = TCPIP | USB | GPIB | ASRL

  /** The I/O libraries a session can be opened through. */
  datatype Backend = Vxi11 | Usbtmc | LinuxGpib | PySerial | PyVisa

  function TypeName(t: ResType): (s: string)
    ensures 3 <= |s| <= 5
  {
    match t
    case TCPIP => "TCPIP"
    case USB => "USB"
    case GPIB => "GPIB"
    case ASRL => "ASRL"
  }

  /** The library each type is opened with when PyVISA is not preferred. */
  function NativeBackend(t: ResType): (b: Backend)
    ensures b != PyVisa
  {
    match t
    case TCPIP => Vxi11
    case USB => Usbtmc
    case GPIB => LinuxGpib
    case ASRL => PySerial
  }

  /** Python's `str.isspace`, the class `\s` stands for. */
  predicate IsSpace(c: char) {
    '\t' <= c <= '\r' || '\U{1C}' <= c <= ' ' || c == '\U{85}' || c == '\U{A0}'
    || c == '\U{1680}' || '\U{2000}' <= c <= '\U{200A}' || c == '\U{2028}'
    || c == '\U{2029}' || c == '\U{202F}' || c == '\U{205F}' || c == '\U{3000}'
  }

  /** Character c matches the upper-case pattern letter p under `re.I`. */
  predicate FoldsTo(c: char, p: char)
    requires 'A' <= p <= 'Z'
  {
    c == p || c as int == p as int + 32
    || (p == 'I' && (c == '\U{130}' || c == '\U{131}'))
    || (p == 'S' && c == '\U{17F}')
  }

  predicate IsUpperAscii(p: string) {
    forall i :: 0 <= i < |p| ==> 'A' <= p[i] <= 'Z'
  }

  /** s matches the upper-case literal p case-insensitively. */
  predicate MatchesCI(s: string, p: string)
    requires IsUpperAscii(p)
  {
    |s| == |p| && forall i :: 0 <= i < |s| ==> FoldsTo(s[i], p[i])
  }

  /** `str.upper` on the characters that can match a pattern letter:
      the dotless i and the long s become I and S; the dotted capital I is
      already upper case and stays. */
  function UpperChar(c: char): (u: char)
    ensures 'a' <= c <= 'z' ==> u as int == c as int - 32
  {
    if 'a' <= c <= 'z' then (c as int - 32) as char
    else if c == '\U{131}' then 'I'
    else if c == '\U{17F}' then 'S'
    else c
  }

  function Upper(s: string): (u: string)
    ensures |u| == |s|
    ensures forall i :: 0 <= i < |s| ==> u[i] == UpperChar(s[i])
  {
    if s == [] then [] else [UpperChar(s[0])] + Upper(s[1..])
  }

  /** `[^\s:]` */
  predicate ArgChar(c: char) {
    !IsSpace(c) && c != ':'
  }

  /** `[^\s:]+` */
  predicate Plain(t: string) {
    |t| > 0 && forall i :: 0 <= i < |t| ==> ArgChar(t[i])
  }

  /** `\[.+\]`: `.` is anything but a newline. */
  predicate Bracketed(t: string) {
    |t| >= 3 && t[0] == '[' && t[|t| - 1] == ']'
    && forall i :: 1 <= i < |t| - 1 ==> t[i] != '\n'
  }

  /** `[^\s:]+\[.+\]` */
  predicate WithBracket(t: string) {
    exists k :: 0 < k < |t| && Plain(t[..k]) && Bracketed(t[k..])
  }

  /** An optional group `(::<arg>)?`; only the second argument may carry a
      bracketed part. */
  predicate Group(g: string, second: bool) {
    g == [] || (|g| > 2 && g[..2] == "::" && (Plain(g[2..]) || (second && WithBracket(g[2..]))))
  }

  /** `(::(?P<suffix>INSTR))$` */
  predicate Suffix(x: string) {
    (|x| == 7 && x[..2] == "::" && MatchesCI(x[2..], "INSTR"))
    || (|x| == 8 && x[..2] == "::" && MatchesCI(x[2..7], "INSTR") && x[7] == '\n')
  }

  /** Everything after the prefix: four optional arguments and the suffix. */
  predicate Tail(r: string) {
    exists i, j, k, l :: 0 <= i <= j <= k <= l <= |r|
      && Group(r[..i], false) && Group(r[i..j], true) && Group(r[j..k], false)
      && Group(r[k..l], false) && Suffix(r[l..])
  }

  /** `\d` in a str pattern: a character of the Unicode general category
      Nd (decimal digit), as of Unicode 15.0: the ASCII digits and the
      other scripts' runs of ten, plus the mathematical digit styles. */
  predicate RegexDigit(c: char) {
    '0' <= c <= '9'
    || '\U{0660}' <= c <= '\U{0669}'
    || '\U{06F0}' <= c <= '\U{06F9}'
    || '\U{07C0}' <= c <= '\U{07C9}'
    || '\U{0966}' <= c <= '\U{096F}'
    || '\U{09E6}' <= c <= '\U{09EF}'
    || '\U{0A66}' <= c <= '\U{0A6F}'
    || '\U{0AE6}' <= c <= '\U{0AEF}'
    || '\U{0B66}' <= c <= '\U{0B6F}'
    || '\U{0BE6}' <= c <= '\U{0BEF}'
    || '\U{0C66}' <= c <= '\U{0C6F}'
    || '\U{0CE6}' <= c <= '\U{0CEF}'
    || '\U{0D66}' <= c <= '\U{0D6F}'
    || '\U{0DE6}' <= c <= '\U{0DEF}'
    || '\U{0E50}' <= c <= '\U{0E59}'
    || '\U{0ED0}' <= c <= '\U{0ED9}'
    || '\U{0F20}' <= c <= '\U{0F29}'
    || '\U{1040}' <= c <= '\U{1049}'
    || '\U{1090}' <= c <= '\U{1099}'
    || '\U{17E0}' <= c <= '\U{17E9}'
    || '\U{1810}' <= c <= '\U{1819}'
    || '\U{1946}' <= c <= '\U{194F}'
    || '\U{19D0}' <= c <= '\U{19D9}'
    || '\U{1A80}' <= c <= '\U{1A89}'
    || '\U{1A90}' <= c <= '\U{1A99}'
    || '\U{1B50}' <= c <= '\U{1B59}'
    || '\U{1BB0}' <= c <= '\U{1BB9}'
    || '\U{1C40}' <= c <= '\U{1C49}'
    || '\U{1C50}' <= c <= '\U{1C59}'
    || '\U{A620}' <= c <= '\U{A629}'
    || '\U{A8D0}' <= c <= '\U{A8D9}'
    || '\U{A900}' <= c <= '\U{A909}'
    || '\U{A9D0}' <= c <= '\U{A9D9}'
    || '\U{A9F0}' <= c <= '\U{A9F9}'
    || '\U{AA50}' <= c <= '\U{AA59}'
    || '\U{ABF0}' <= c <= '\U{ABF9}'
    || '\U{FF10}' <= c <= '\U{FF19}'
    || '\U{104A0}' <= c <= '\U{104A9}'
    || '\U{10D30}' <= c <= '\U{10D39}'
    || '\U{11066}' <= c <= '\U{1106F}'
    || '\U{110F0}' <= c <= '\U{110F9}'
    || '\U{11136}' <= c <= '\U{1113F}'
    || '\U{111D0}' <= c <= '\U{111D9}'
    || '\U{112F0}' <= c <= '\U{112F9}'
    || '\U{11450}' <= c <= '\U{11459}'
    || '\U{114D0}' <= c <= '\U{114D9}'
    || '\U{11650}' <= c <= '\U{11659}'
    || '\U{116C0}' <= c <= '\U{116C9}'
    || '\U{11730}' <= c <= '\U{11739}'
    || '\U{118E0}' <= c <= '\U{118E9}'
    || '\U{11950}' <= c <= '\U{11959}'
    || '\U{11C50}' <= c <= '\U{11C59}'
    || '\U{11D50}' <= c <= '\U{11D59}'
    || '\U{11DA0}' <= c <= '\U{11DA9}'
    || '\U{11F50}' <= c <= '\U{11F59}'
    || '\U{16A60}' <= c <= '\U{16A69}'
    || '\U{16AC0}' <= c <= '\U{16AC9}'
    || '\U{16B50}' <= c <= '\U{16B59}'
    || '\U{1D7CE}' <= c <= '\U{1D7FF}'
    || '\U{1E140}' <= c <= '\U{1E149}'
    || '\U{1E2F0}' <= c <= '\U{1E2F9}'
    || '\U{1E4F0}' <= c <= '\U{1E4F9}'
    || '\U{1E950}' <= c <= '\U{1E959}'
    || '\U{1FBF0}' <= c <= '\U{1FBF9}'
  }

  /** `\d*` */
  predicate RegexDigits(s: string) {
    forall i :: 0 <= i < |s| ==> RegexDigit(s[i])
  }

  /** The ASCII numerals `'%d'` writes are among them. */
  lemma AsciiRegexDigits(s: string)
    requires Decimal.AllDigits(s)
    ensures RegexDigits(s)
  {
  }

  /** The whole pattern, with the `type` group matching type t. */
  predicate TypeMatch(s: string, t: ResType) {
    var n := |TypeName(t)|;
    n <= |s| && MatchesCI(s[..n], TypeName(t))
    && exists d :: n <= d <= |s| && RegexDigits(s[n..d]) && Tail(s[d..])
  }

  /** `m.group('type').upper()`: one of the four names, or (when the
      group holds a dotted capital I) a string that is none of them. */
  datatype TypeToken = Known(t: ResType) | Unknown(name: string)

  function Token(s: string, t: ResType): (tok: TypeToken)
    requires |TypeName(t)| <= |s|
  {
    var u := Upper(s[..|TypeName(t)|]);
    if u == TypeName(t) then Known(t) else Unknown(u)
  }

  /** `re.match(pattern, resource, re.I)`, reduced to the upper-cased type
      group that initialize goes on with; None when there is no match. */
  function MatchDescriptor(s: string): (r: Option<TypeToken>)
    ensures r.None? <==> forall t :: !TypeMatch(s, t)
    ensures r.Some? ==> exists t :: TypeMatch(s, t) && r.value == Token(s, t)
  {
    if TypeMatch(s, TCPIP) then Some(Token(s, TCPIP))
    else if TypeMatch(s, USB) then Some(Token(s, USB))
    else if TypeMatch(s, GPIB) then Some(Token(s, GPIB))
    else if TypeMatch(s, ASRL) then Some(Token(s, ASRL))
    else None
  }

  /** The preference order initialize applies to a matched type: PyVISA if it
      is preferred and present, then the type's own library, then PyVISA. */
  function SelectBackend(tok: TypeToken, prefer: bool, available: set<Backend>): (r: Option<Backend>)
    ensures r.Some? ==> r.value in available
    ensures r.Some? <==> PyVisa in available || (tok.Known? && NativeBackend(tok.t) in available)
    ensures r.Some? ==> r.value == PyVisa || (tok.Known? && r.value == NativeBackend(tok.t))
    ensures prefer && PyVisa in available ==> r == Some(PyVisa)
    ensures tok.Known? && NativeBackend(tok.t) in available && !(prefer && PyVisa in available)
      ==> r == Some(NativeBackend(tok.t))
  {
    match tok
    case Known(t) =>
      if prefer && PyVisa in available then Some(PyVisa)
      else if NativeBackend(t) in available then Some(NativeBackend(t))
      else if PyVisa in available then Some(PyVisa)
      else None
    case Unknown(_) =>
      if PyVisa in available then Some(PyVisa) else None
  }

  /** The backend initialize opens a string resource with, or the
      IOException it raises. */
  function StringBackend(s: string, prefer: bool, available: set<Backend>): (r: Result<Backend>)
    ensures r.Ok? ==> r.value in available
    ensures PyVisa in available ==> r.Ok?
    ensures MatchDescriptor(s).None? ==>
      r == (if PyVisa in available then Ok(PyVisa) else Err(IOError("Invalid resource string")))
    ensures MatchDescriptor(s).Some? ==>
      (r.Ok? <==> SelectBackend(MatchDescriptor(s).value, prefer, available).Some?)
    ensures r.Err? ==> r.error.IOError?
  {
    match MatchDescriptor(s)
    case None =>
      if PyVisa in available then Ok(PyVisa) else Err(IOError("Invalid resource string"))
    case Some(tok) =>
      match SelectBackend(tok, prefer, available)
      case Some(b) => Ok(b)
      case None =>
        if tok.Known? then Err(IOError("Cannot use resource type " + TypeName(tok.t)))
        else Err(IOError("Unknown resource type " + tok.name))
  }

  /** A board number in another script's digits still matches, since `\d`
      takes every decimal digit: `GPIB\u0661::1::INSTR` (ARABIC-INDIC DIGIT
      ONE) is a GPIB descriptor and opens with linux-gpib. */
  lemma NonAsciiBoard()
    ensures MatchDescriptor("GPIB\U{0661}::1::INSTR") == Some(Known(GPIB))
    ensures StringBackend("GPIB\U{0661}::1::INSTR", false, {LinuxGpib}) == Ok(LinuxGpib)
  {
    NonAsciiBoardParts();
    DescriptorToken(GPIB, "GPIB", "\U{0661}", "1", [], [], [], "INSTR");
    NonAsciiBoardText();
  }

  lemma NonAsciiBoardParts()
    ensures MatchesCI("GPIB", TypeName(GPIB)) && MatchesCI("INSTR", "INSTR")
    ensures RegexDigits("\U{0661}") && Plain("1") && '\U{130}' !in "GPIB"
  {
    assert ArgChar('1');
  }

  lemma NonAsciiBoardText()
    ensures Descriptor("GPIB", "\U{0661}", "1", [], [], [], "INSTR") == "GPIB\U{0661}::1::INSTR"
  {
    assert Arg("1") == "::1" && Arg([]) == [];
  }

  /** The type group decides the type: no string matches with two of them. */
  lemma TypeUnique(s: string, t1: ResType, t2: ResType)
    requires TypeMatch(s, t1) && TypeMatch(s, t2)
    ensures t1 == t2
  {
    assert FoldsTo(s[0], TypeName(t1)[0]) && FoldsTo(s[0], TypeName(t2)[0]);
  }

  /** A matched type group upper-cases to its type's name unless it holds a
      dotted capital I, which upper-casing leaves alone. */
  lemma KnownUnlessDottedI(s: string, t: ResType)
    requires TypeMatch(s, t)
    ensures Token(s, t).Known? <==> '\U{130}' !in s[..|TypeName(t)|]
  {
    UpperOfMatch(s[..|TypeName(t)|], TypeName(t));
  }

  /** Upper-casing a case-insensitive match of an upper-case word gives the
      word back exactly when no dotted capital I is involved. */
  lemma UpperOfMatch(g: string, p: string)
    requires IsUpperAscii(p) && MatchesCI(g, p)
    ensures Upper(g) == p <==> '\U{130}' !in g
  {
    var u := Upper(g);
    if '\U{130}' in g {
      var i :| 0 <= i < |g| && g[i] == '\U{130}';
      assert u[i] != p[i];
    } else {
      forall i | 0 <= i < |g|
        ensures u[i] == p[i]
      {
        assert FoldsTo(g[i], p[i]);
      }
    }
  }

  /** What initialize goes on with for a descriptor of the documented shape:
      its own type, unless the type name is spelt with a dotted capital I
      (U+0130), which the pattern accepts for 'i' but upper-casing keeps, so
      that the "Unknown resource type" path is taken. */
  lemma DescriptorToken(t: ResType, name: string, board: string,
                        a1: string, a2: string, a3: string, a4: string, instr: string)
    requires MatchesCI(name, TypeName(t)) && RegexDigits(board)
    requires a1 == [] || Plain(a1)
    requires a2 == [] || Plain(a2) || WithBracket(a2)
    requires a3 == [] || Plain(a3)
    requires a4 == [] || Plain(a4)
    requires MatchesCI(instr, "INSTR")
    ensures var s := Descriptor(name, board, a1, a2, a3, a4, instr);
      MatchDescriptor(s) == Some(if '\U{130}' in name then Unknown(Upper(name)) else Known(t))
  {
    var s := Descriptor(name, board, a1, a2, a3, a4, instr);
    DescriptorMatches(t, name, board, a1, a2, a3, a4, instr);
    DescriptorStarts(name, board, a1, a2, a3, a4, instr);
    MatchDescriptorOf(s, t);
    TokenOfName(s, t, name);
  }

  lemma DescriptorStarts(name: string, board: string, a1: string, a2: string,
                         a3: string, a4: string, instr: string)
    ensures var s := Descriptor(name, board, a1, a2, a3, a4, instr);
      |name| <= |s| && s[..|name|] == name
  {
  }

  /** The token of a match whose type group is `name`. */
  lemma TokenOfName(s: string, t: ResType, name: string)
    requires TypeMatch(s, t) && MatchesCI(name, TypeName(t))
    requires |name| <= |s| && s[..|name|] == name
    ensures Token(s, t) == if '\U{130}' in name then Unknown(Upper(name)) else Known(t)
  {
    KnownUnlessDottedI(s, t);
  }

  lemma MatchDescriptorOf(s: string, t: ResType)
    requires TypeMatch(s, t)
    ensures MatchDescriptor(s) == Some(Token(s, t))
  {
    var t' :| TypeMatch(s, t') && MatchDescriptor(s).value == Token(s, t');
    TypeUnique(s, t, t');
  }

  lemma FirstLetterDecides(s: string, t: ResType)
    requires |s| > 0 && !FoldsTo(s[0], TypeName(t)[0])
    ensures !TypeMatch(s, t)
  {
  }

  /** `::<arg>` for an argument that is present, nothing for one left out. */
  function Arg(a: string): (g: string)
  {
    if a == [] then [] else "::" + a
  }

  lemma ArgGroup(a: string, second: bool)
    requires a == [] || Plain(a) || (second && WithBracket(a))
    ensures Group(Arg(a), second)
  {
    if a != [] {
      assert Arg(a)[2..] == a;
    }
  }

  lemma TailOf(g1: string, g2: string, g3: string, g4: string, x: string)
    requires Group(g1, false) && Group(g2, true) && Group(g3, false) && Group(g4, false)
    requires Suffix(x)
    ensures Tail(g1 + g2 + g3 + g4 + x)
  {
    var r := g1 + g2 + g3 + g4 + x;
    var i, j, k, l := |g1|, |g1| + |g2|, |g1| + |g2| + |g3|, |g1| + |g2| + |g3| + |g4|;
    Cuts(g1, g2, g3, g4, x, i, j, k, l);
    assert Group(r[..i], false) && Group(r[i..j], true) && Group(r[j..k], false)
      && Group(r[k..l], false) && Suffix(r[l..]);
  }

  /** Cutting a concatenation at the boundaries of its parts. */
  lemma Cuts(g1: string, g2: string, g3: string, g4: string, x: string, i: nat, j: nat, k: nat, l: nat)
    requires i == |g1| && j == i + |g2| && k == j + |g3| && l == k + |g4|
    ensures var r := g1 + g2 + g3 + g4 + x;
      l <= |r| && r[..i] == g1 && r[i..j] == g2 && r[j..k] == g3 && r[k..l] == g4 && r[l..] == x
  {
  }

  lemma InstrSuffix(instr: string)
    requires MatchesCI(instr, "INSTR")
    ensures Suffix("::" + instr)
  {
    var x := "::" + instr;
    assert x[..2] == "::" && x[2..] == instr;
  }

  lemma PrefixOf(t: ResType, name: string, board: string, r: string)
    requires MatchesCI(name, TypeName(t)) && RegexDigits(board) && Tail(r)
    ensures TypeMatch(name + board + r, t)
  {
    var s := name + board + r;
    var n := |TypeName(t)|;
    assert s[..n] == name;
    assert s[n..n + |board|] == board && s[n + |board|..] == r;
  }

  /** `<name><board>::<a1>::<a2>::<a3>::<a4>::<instr>`, each argument
      with its `::` left out when it is empty. */
  function Descriptor(name: string, board: string, a1: string, a2: string,
                      a3: string, a4: string, instr: string): (s: string)
  {
    name + board + (Arg(a1) + Arg(a2) + Arg(a3) + Arg(a4) + ("::" + instr))
  }

  /** Every descriptor of the documented shape matches: a type name in any
      case, an optional board number, up to four arguments (the second may
      end in a bracketed part) and INSTR in any case. */
  lemma DescriptorMatches(t: ResType, name: string, board: string,
                          a1: string, a2: string, a3: string, a4: string, instr: string)
    requires MatchesCI(name, TypeName(t)) && RegexDigits(board)
    requires a1 == [] || Plain(a1)
    requires a2 == [] || Plain(a2) || WithBracket(a2)
    requires a3 == [] || Plain(a3)
    requires a4 == [] || Plain(a4)
    requires MatchesCI(instr, "INSTR")
    ensures TypeMatch(Descriptor(name, board, a1, a2, a3, a4, instr), t)
  {
    ArgGroup(a1, false);
    ArgGroup(a2, true);
    ArgGroup(a3, false);
    ArgGroup(a4, false);
    InstrSuffix(instr);
    var r := Arg(a1) + Arg(a2) + Arg(a3) + Arg(a4) + ("::" + instr);
    TailOf(Arg(a1), Arg(a2), Arg(a3), Arg(a4), "::" + instr);
    PrefixOf(t, name, board, r);
  }

  /** A string that matches ends in `::INSTR`, in any case, possibly
      followed by one newline. */
  lemma MatchEndsInInstr(s: string)
    requires MatchDescriptor(s).Some?
    ensures Suffix(s[|s| - 7..]) || Suffix(s[|s| - 8..])
  {
    var t :| TypeMatch(s, t);
    TypeEndsInInstr(s, t);
  }

  lemma TypeEndsInInstr(s: string, t: ResType)
    requires TypeMatch(s, t)
    ensures Suffix(s[|s| - 7..]) || Suffix(s[|s| - 8..])
  {
    var r := TypeTail(s, t);
    var l := SuffixStart(r);
    EndsWith(s, r, l);
  }

  /** A suffix of `s` whose own tail from l matches the suffix pattern. */
  lemma EndsWith(s: string, r: string, l: nat)
    requires |r| <= |s| && r == s[|s| - |r|..] && l <= |r| && Suffix(r[l..])
    ensures Suffix(s[|s| - 7..]) || Suffix(s[|s| - 8..])
  {
    var x := r[l..];
    assert x == s[|s| - |x|..];
  }

  lemma TypeTail(s: string, t: ResType) returns (r: string)
    requires TypeMatch(s, t)
    ensures Tail(r) && |r| <= |s| && r == s[|s| - |r|..]
  {
    var n := |TypeName(t)|;
    var d :| n <= d <= |s| && RegexDigits(s[n..d]) && Tail(s[d..]);
    r := s[d..];
  }

  lemma SuffixStart(r: string) returns (l: nat)
    requires Tail(r)
    ensures l <= |r| && Suffix(r[l..])
  {
    var i, j, k, l' :| 0 <= i <= j <= k <= l' <= |r|
      && Group(r[..i], false) && Group(r[i..j], true) && Group(r[j..k], false)
      && Group(r[k..l'], false) && Suffix(r[l'..]);
    l := l';
  }
}
