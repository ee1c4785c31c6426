/** Key-management suites: the printer and the parser of src/wifi_manager/wifi_wpa.c, the leading-zero
    count of src/macsw/export/co_math.h, and the comparison that decides whether a configured network
    has changed. */
module KeyMgmt {
  import opened Wrappers
  import opened BitField
  import opened Splitting

  // ---------- Suites ----------

  const NONE: nat := 0
  const PRE_RSN: nat := 1
  const PSK: nat := 3

  /** The printed name of each suite, by number; PRE_RSN has none. */
  const AKM_NAMES: seq<string> :=
    ["NONE", "", "WPA-EAP", "WPA-PSK", "FT_EAP", "FT-PSK", "WPA-EAP-SHA256", "WPA-PSK-SHA256", "TDLS", "SAE", "FT-SAE",
     "WPA-EAP-SUITE-B", "WPA-EAP-SUITE-B-192", "FILS-SHA256", "FILS-SHA384", "FT-FILS-SHA256", "FT-FILS-SHA384",
     "OWE", "WAPI-CERT", "WAPI-PSK", "DPP"]

  /** The printed name of each cipher, by number. */
  const CIPHER_NAMES: seq<string> :=
    ["WEP40", "TKIP", "CCMP", "WEP104", "WPI_SMS4", "AES-128-CMAC", "GCMP", "GCMP-256", "CCMP-256", "BIP-GMAC-128",
     "BIP-GMAC-256", "BIP-CMAC-256"]

  // ---------- Printer ----------

  predicate Printed(names: seq<string>, chosen: set<nat>, i: nat) { i < |names| && i in chosen && names[i] != "" }

  /** What is printed for the entries from `i` on: each chosen name after a blank. */
  function Text(names: seq<string>, chosen: set<nat>, i: nat := 0): string
    requires i <= |names|
    decreases |names| - i
  {
    if i == |names| then ""
    else if Printed(names, chosen, i) then " " + names[i] + Text(names, chosen, i + 1)
    else Text(names, chosen, i + 1)
  }

  // Adds a blank and a word behind the text `done` that starts at `from`.
  method PutWord(buf: array<char>, from: nat, at: nat, w: string, ghost done: string)
    requires from <= at && at + 1 + |w| <= buf.Length && buf[from..at] == done
    modifies buf
    ensures buf[from..at + 1 + |w|] == done + (" " + w)
    ensures forall k :: 0 <= k < buf.Length && !(at <= k < at + 1 + |w|) ==> buf[k] == old(buf[k])
  {
    buf[at] := ' ';
    forall k | 0 <= k < |w| { buf[at + 1 + k] := w[k]; }
    assert buf[at..at + 1 + |w|] == " " + w;
    assert buf[from..at] == old(buf[from..at]);
    assert buf[from..at + 1 + |w|] == buf[from..at] + buf[at..at + 1 + |w|];
  }

  method PutEnd(buf: array<char>, from: nat, at: nat, t: string)
    requires from <= at && at + 1 < buf.Length && buf[from..at] == t
    modifies buf
    ensures buf[from..at + 1] == t + ";" && buf[at + 1] == '\0'
    ensures forall k :: 0 <= k < buf.Length && k != at && k != at + 1 ==> buf[k] == old(buf[k])
  {
    ghost var before := buf[from..at];
    buf[at] := ';';
    buf[at + 1] := '\0';
    assert buf[from..at] == before;
  }

  lemma TextStep(names: seq<string>, chosen: set<nat>, i: nat, done: string)
    requires Printed(names, chosen, i)
    ensures done + Text(names, chosen, i) == done + (" " + names[i]) + Text(names, chosen, i + 1)
    ensures |Text(names, chosen, i)| == 1 + |names[i]| + |Text(names, chosen, i + 1)|
  {
    assert done + (" " + names[i] + Text(names, chosen, i + 1)) == done + (" " + names[i]) + Text(names, chosen, i + 1);
  }

  lemma TextSkip(names: seq<string>, chosen: set<nat>, i: nat)
    requires i < |names| && !Printed(names, chosen, i)
    ensures Text(names, chosen, i) == Text(names, chosen, i + 1)
  {
  }

  lemma TextEnd(names: seq<string>, chosen: set<nat>)
    ensures Text(names, chosen, |names|) == ""
  {
  }

  /** Prints the chosen names into the `len` characters at `at` and returns how many were written, the
      closing ';' but not the closing NUL counted; -1, exactly when text, ';' and NUL do not fit. */
  method PrintNames(names: seq<string>, chosen: set<nat>, buf: array<char>, at: nat, len: nat) returns (written: int)
    requires at + len <= buf.Length
    modifies buf
    ensures if |Text(names, chosen)| + 2 <= len
            then written == |Text(names, chosen)| + 1 && buf[at..at + written] == Text(names, chosen) + ";" && buf[at + written] == '\0'
            else written == -1
    ensures forall k :: 0 <= k < buf.Length && !(at <= k < at + len) ==> buf[k] == old(buf[k])
  {
    hide Text;
    if len < 2 { return -1; }
    var left: int := len - 2;
    var p := at;
    var i := 0;
    while i < |names|
      invariant 0 <= i <= |names| && 0 <= left && p + left == at + len - 2 && at <= p
      invariant buf[at..p] + Text(names, chosen, i) == Text(names, chosen)
      invariant p - at + |Text(names, chosen, i)| == |Text(names, chosen)|
      invariant forall k :: 0 <= k < buf.Length && !(at <= k < at + len) ==> buf[k] == old(buf[k])
    {
      if i in chosen && names[i] != "" {
        var n := |names[i]|;
        ghost var done := buf[at..p];
        TextStep(names, chosen, i, done);
        if left < n + 1 { return -1; }
        PutWord(buf, at, p, names[i], done);
        p := p + 1 + n;
        left := left - (n + 1);
      } else {
        TextSkip(names, chosen, i);
      }
      i := i + 1;
    }
    TextEnd(names, chosen);
    assert buf[at..p] == Text(names, chosen);
    PutEnd(buf, at, p, Text(names, chosen));
    written := p + 1 - at;
  }

  // ---------- Parser ----------

  const BLANKS: set<char> := {' ', '\t'}

  /** The suites a word stands for; OWE and FT-PSK only when they are built in. */
  function Meaning(w: string, owe: bool, ft: bool): Option<set<nat>> {
    if w == "WPA-PSK" then Some({PSK, PRE_RSN})
    else if w == "NONE" then Some({NONE})
    else if w == "SAE" then Some({9})
    else if w == "WPA-EAP" then Some({2})
    else if w == "WPA-EAP-SHA256" then Some({6})
    else if w == "WPA-EAP-SUITE-B" then Some({11})
    else if w == "WPA-EAP-SUITE-B-192" then Some({12})
    else if owe && w == "OWE" then Some({17})
    else if ft && w == "FT-PSK" then Some({5})
    else None
  }

  datatype Reading = Reading(suites: set<nat>, ok: bool)

  function Read(ws: seq<string>, r: Reading, owe: bool, ft: bool): Reading
    decreases |ws|
  {
    if ws == [] then r
    else
      var m := Meaning(ws[0], owe, ft);
      Read(ws[1..], if m == None then r.(ok := false) else r.(suites := r.suites + m.value), owe, ft)
  }

  /** The suites named by a string; None (the program's all-ones word) for an unknown word or none at all. */
  function Parse(s: string, owe: bool, ft: bool): Option<set<nat>> {
    var r := Read(Words(s, BLANKS), Reading({}, true), owe, ft);
    if r.ok && r.suites != {} then Some(r.suites) else None
  }

  method SkipBlanks(str: array<char>, t: string, from: nat) returns (start: nat)
    requires from <= |t| < str.Length && str[|t|] == '\0' && forall k :: from <= k < |t| ==> str[k] == t[k]
    ensures from <= start <= |t| && Words(t[start..], BLANKS) == Words(t[from..], BLANKS) && str[start] !in BLANKS
  {
    start := from;
    while str[start] == ' ' || str[start] == '\t'
      invariant from <= start <= |t| && Words(t[start..], BLANKS) == Words(t[from..], BLANKS)
      decreases |t| - start
    {
      assert t[start..][1..] == t[start + 1..];
      start := start + 1;
    }
  }

  method WordEnd(str: array<char>, t: string, start: nat) returns (end: nat)
    requires start < |t| < str.Length && str[|t|] == '\0' && (forall k :: start <= k < |t| ==> str[k] == t[k]) && t[start] !in BLANKS
    requires '\0' !in t
    ensures start < end <= |t| && (str[end] == '\0' <==> end == |t|)
    ensures Words(t[start..], BLANKS) == [t[start..end]] + Words(t[end..], BLANKS) && (end < |t| ==> t[end] in BLANKS)
  {
    end := start;
    while str[end] != ' ' && str[end] != '\t' && str[end] != '\0'
      invariant start <= end <= |t| && forall k :: start <= k < end ==> t[k] !in BLANKS
      decreases |t| - end
    {
      end := end + 1;
    }
    WordAt(t, start, end, BLANKS);
  }

  // Reading continues after a word as from its effect.
  lemma ReadWord(w: string, ws: seq<string>, r: Reading, owe: bool, ft: bool)
    ensures var m := Meaning(w, owe, ft);
            Read([w] + ws, r, owe, ft) == Read(ws, if m == None then r.(ok := false) else r.(suites := r.suites + m.value), owe, ft)
  {
    assert ([w] + ws)[1..] == ws;
  }

  /** The parser, which cuts the words out of the string in place. */
  method ParseKeyMgmt(str: array<char>, t: string, owe: bool, ft: bool) returns (r: Option<set<nat>>)
    requires Holds(str[..], t)
    modifies str
    ensures r == Parse(t, owe, ft)
  {
    hide Words, Meaning, Read;
    assert t[0..] == t && forall k :: 0 <= k < |t| ==> str[k] == str[..|t|][k];
    var val, ok := {}, true;
    var start := 0;
    ghost var want := Read(Words(t, BLANKS), Reading({}, true), owe, ft);
    while str[start] != '\0'
      invariant 0 <= start <= |t| < str.Length && str[|t|] == '\0'
      invariant forall k :: start <= k < |t| ==> str[k] == t[k]
      invariant Read(Words(t[start..], BLANKS), Reading(val, ok), owe, ft) == want
      decreases |t| - start
    {
      start := SkipBlanks(str, t, start);
      if str[start] == '\0' { break; }
      var end := WordEnd(str, t, start);
      var last := str[end] == '\0';
      str[end] := '\0';
      var word := str[start..end];
      assert word == t[start..end];
      ReadWord(word, Words(t[end..], BLANKS), Reading(val, ok), owe, ft);
      var m := Meaning(word, owe, ft);
      if m == None { ok := false; } else { val := val + m.value; }
      start := end;
      if last { break; }
      WordsPastSep(t, end, BLANKS);
      start := end + 1;
    }
    WordsEmpty(t, |t|, BLANKS);
    assert start == |t|;
    ReadNothing(Reading(val, ok), owe, ft);
    r := if !ok || val == {} then None else Some(val);
  }

  lemma ReadNothing(r: Reading, owe: bool, ft: bool)
    ensures Read([], r, owe, ft) == r
  {
  }

  // ---------- Round trip ----------

  function Chosen(names: seq<string>, chosen: set<nat>, i: nat := 0): seq<string>
    requires i <= |names|
    decreases |names| - i
  {
    if i == |names| then []
    else if Printed(names, chosen, i) then [names[i]] + Chosen(names, chosen, i + 1)
    else Chosen(names, chosen, i + 1)
  }

  /** The words of the printed text are the printed names, in order. */
  lemma {:induction false} WordsOfText(names: seq<string>, chosen: set<nat>, i: nat)
    requires i <= |names| && forall k :: 0 <= k < |names| ==> Solid(names[k], BLANKS)
    ensures Words(Text(names, chosen, i), BLANKS) == Chosen(names, chosen, i)
    ensures Text(names, chosen, i) != "" ==> Text(names, chosen, i)[0] == ' '
    decreases |names| - i
  {
    if i < |names| {
      WordsOfText(names, chosen, i + 1);
      if Printed(names, chosen, i) {
        var t := Text(names, chosen, i);
        var rest := Text(names, chosen, i + 1);
        var e := 1 + |names[i]|;
        assert t == " " + names[i] + rest;
        assert forall k :: 1 <= k < e ==> t[k] == names[i][k - 1];
        assert rest != "" ==> t[e] == rest[0];
        WordAt(t, 1, e, BLANKS);
        assert t[1..e] == names[i] && t[e..] == rest;
      }
    }
  }

  /** The suites the parser knows. */
  predicate Known(i: nat, owe: bool, ft: bool) {
    i in {0, 2, 3, 6, 9, 11, 12} || (owe && i == 17) || (ft && i == 5)
  }

  // What a suite reads back as: PSK stands for the older protocol as well.
  function ReadSuites(i: nat): set<nat> { if i == PSK then {PSK, PRE_RSN} else {i} }

  lemma MeaningOfName(i: nat, owe: bool, ft: bool)
    requires i < |AKM_NAMES| && i != PRE_RSN
    ensures Meaning(AKM_NAMES[i], owe, ft) == if Known(i, owe, ft) then Some(ReadSuites(i)) else None
  {
    // Names of equal length, told apart by one character.
    assert "WPA-PSK"[4] == 'P' && "WPA-EAP"[4] == 'E' && "SAE"[0] == 'S' && "OWE"[0] == 'O' && "DPP"[0] == 'D';
    assert "NONE"[0] == 'N' && "TDLS"[0] == 'T' && "FT_EAP"[2] == '_' && "FT-PSK"[3] == 'P' && "FT-PSK"[2] == '-' && "FT-SAE"[3] == 'S';
    assert "WPA-EAP-SHA256"[4] == 'E' && "WPA-PSK-SHA256"[4] == 'P' && "FT-FILS-SHA256"[0] == 'F' && "FT-FILS-SHA384"[0] == 'F';
    assert "WPA-EAP-SHA256"[0] == 'W';
  }

  /** What the printer and the parser share: the name table, as far as the proofs look at it. */
  predicate Agreed(names: seq<string>, owe: bool, ft: bool) {
    |names| == 21 && forall i :: 0 <= i < 21 ==>
      (names[i] == "" <==> i == PRE_RSN) && Solid(names[i], BLANKS)
      && (i != PRE_RSN ==> Meaning(names[i], owe, ft) == if Known(i, owe, ft) then Some(ReadSuites(i)) else None)
  }

  lemma NamesAgreed(owe: bool, ft: bool)
    ensures Agreed(AKM_NAMES, owe, ft)
  {
    hide Meaning, Solid;
    forall i | 0 <= i < 21
      ensures (AKM_NAMES[i] == "" <==> i == PRE_RSN) && Solid(AKM_NAMES[i], BLANKS)
      ensures i != PRE_RSN ==> Meaning(AKM_NAMES[i], owe, ft) == if Known(i, owe, ft) then Some(ReadSuites(i)) else None
    {
      if i < 11 { FirstNameSolid(i); } else { LastNameSolid(i); }
      if i != PRE_RSN { MeaningOfName(i, owe, ft); }
    }
  }

  lemma FirstNameSolid(i: nat)
    requires i < 11
    ensures (AKM_NAMES[i] == "" <==> i == PRE_RSN) && Solid(AKM_NAMES[i], BLANKS)
  {
  }

  lemma LastNameSolid(i: nat)
    requires 11 <= i < 21
    ensures (AKM_NAMES[i] == "" <==> i == PRE_RSN) && Solid(AKM_NAMES[i], BLANKS)
  {
  }

  predicate AllKnown(akm: set<nat>, owe: bool, ft: bool, i: nat) {
    forall k :: i <= k < 21 && k in akm && k != PRE_RSN ==> Known(k, owe, ft)
  }

  // The suites at or above `i` that a printed set reads back as.
  function ReadBack(akm: set<nat>, owe: bool, ft: bool, i: nat): set<nat> {
    (set k | k in akm && i <= k < 21 && k != PRE_RSN && Known(k, owe, ft)) + if PSK in akm && i <= PSK then {PRE_RSN} else {}
  }

  lemma ReadBackStep(akm: set<nat>, owe: bool, ft: bool, i: nat)
    requires i < 21
    ensures ReadBack(akm, owe, ft, i) ==
            (if i in akm && i != PRE_RSN && Known(i, owe, ft) then ReadSuites(i) else {}) + ReadBack(akm, owe, ft, i + 1)
  {
  }

  lemma {:induction false} ReadsBack(names: seq<string>, akm: set<nat>, owe: bool, ft: bool, i: nat, r: Reading)
    requires Agreed(names, owe, ft) && i <= 21
    ensures Read(Chosen(names, akm, i), r, owe, ft) ==
            Reading(r.suites + ReadBack(akm, owe, ft, i), r.ok && AllKnown(akm, owe, ft, i))
    decreases 21 - i
  {
    hide Meaning, ReadBack, Known;
    if i == 21 {
      assert ReadBack(akm, owe, ft, i) == {} by { NothingAbove(akm, owe, ft); }
    } else {
      ReadBackStep(akm, owe, ft, i);
      if Printed(names, akm, i) {
        var m := Meaning(names[i], owe, ft);
        var q := if m == None then r.(ok := false) else r.(suites := r.suites + m.value);
        ReadWord(names[i], Chosen(names, akm, i + 1), r, owe, ft);
        ReadsBack(names, akm, owe, ft, i + 1, q);
        assert q.suites + ReadBack(akm, owe, ft, i + 1) == r.suites + ReadBack(akm, owe, ft, i);
      } else {
        ReadsBack(names, akm, owe, ft, i + 1, r);
        assert ReadBack(akm, owe, ft, i + 1) == ReadBack(akm, owe, ft, i);
      }
    }
  }

  lemma NothingAbove(akm: set<nat>, owe: bool, ft: bool)
    ensures ReadBack(akm, owe, ft, 21) == {}
  {
  }

  /** Printing a set of suites and parsing the text gives the same set back, with PRE_RSN present exactly
      when PSK is: for every set in which each printed suite is one the parser knows, and for no other. */
  lemma PrintParse(akm: set<nat>, owe: bool, ft: bool)
    requires forall k :: k in akm ==> k < 21
    ensures var p := Parse(Text(AKM_NAMES, akm), owe, ft);
            p == if AllKnown(akm, owe, ft, 0) && akm - {PRE_RSN} != {}
                 then Some((akm - {PRE_RSN}) + if PSK in akm then {PRE_RSN} else {}) else None
  {
    NamesAgreed(owe, ft);
    PrintParseOf(AKM_NAMES, akm, owe, ft);
  }

  lemma PrintParseOf(names: seq<string>, akm: set<nat>, owe: bool, ft: bool)
    requires Agreed(names, owe, ft) && forall k :: k in akm ==> k < 21
    ensures var p := Parse(Text(names, akm), owe, ft);
            p == if AllKnown(akm, owe, ft, 0) && akm - {PRE_RSN} != {}
                 then Some((akm - {PRE_RSN}) + if PSK in akm then {PRE_RSN} else {}) else None
  {
    hide Known, Meaning, Words, Text, Chosen, Read;
    WordsOfText(names, akm, 0);
    ReadsBack(names, akm, owe, ft, 0, Reading({}, true));
    assert {} + ReadBack(akm, owe, ft, 0) == ReadBack(akm, owe, ft, 0);
    if AllKnown(akm, owe, ft, 0) {
      AllReadBack(akm, owe, ft);
    }
  }

  lemma AllReadBack(akm: set<nat>, owe: bool, ft: bool)
    requires AllKnown(akm, owe, ft, 0) && forall k :: k in akm ==> k < 21
    ensures ReadBack(akm, owe, ft, 0) == (akm - {PRE_RSN}) + if PSK in akm then {PRE_RSN} else {}
    ensures ReadBack(akm, owe, ft, 0) == {} <==> akm - {PRE_RSN} == {}
  {
    hide Known;
    assert PSK in akm ==> PSK in akm - {PRE_RSN};
  }

  // ---------- Leading zeros ----------

  /** `r` is the number of leading zeros of the 32-bit word `v`. */
  predicate LeadingZeros(v: nat, r: nat) {
    if v == 0 then r == 32 else r <= 31 && Pow2(31 - r) <= v < 2 * Pow2(31 - r)
  }

  lemma {:induction false} Pow2Monotone(a: nat, b: nat)
    requires a < b
    ensures 2 * Pow2(a) <= Pow2(b)
    decreases b
  {
    if a < b - 1 { Pow2Monotone(a, b - 1); }
  }

  lemma LeadingZerosUnique(v: nat, r: nat, q: nat)
    requires LeadingZeros(v, r) && LeadingZeros(v, q)
    ensures r == q
  {
    if v != 0 && r < q { Pow2Monotone(31 - q, 31 - r); }
    if v != 0 && q < r { Pow2Monotone(31 - r, 31 - q); }
  }

  // The top bits of the word from bit `shift` up are `val`.
  predicate TopBits(word: nat, val: nat, shift: nat) {
    val > 0 && Pow2(shift) * val <= word < Pow2(shift) * (val + 1)
  }

  /** One narrowing step: drop the low k bits (a factor c) of the value, unless nothing would be left. */
  method NarrowBy(word: nat, val: nat, shift: nat, k: nat, c: nat) returns (val': nat, shift': nat)
    requires TopBits(word, val, shift) && c == Pow2(k) && val < c * c
    ensures TopBits(word, val', shift') && val' < c && shift <= shift' <= shift + k
  {
    hide Pow2, TopBits;
    var tmp := val / c;
    if tmp != 0 {
      Narrowed(word, val, shift, k, c);
      return tmp, shift + k;
    }
    Small(val, c);
    return val, shift;
  }

  lemma Narrowed(word: nat, val: nat, shift: nat, k: nat, c: nat)
    requires c > 0 && val / c > 0 && val < c * c
    requires c == Pow2(k) && TopBits(word, val, shift)
    ensures TopBits(word, val / c, shift + k) && val / c < c
  {
    hide Pow2;
    Narrow(word, Pow2(shift), val, c);
    Pow2Plus(shift, k);
    Quotient(val, c);
  }

  lemma Small(val: nat, c: nat)
    requires c > 0 && val / c == 0
    ensures val < c
  {
  }

  lemma {:induction false} Pow2Plus(n: nat, k: nat)
    ensures Pow2(n + k) == Pow2(n) * Pow2(k)
    decreases k
  {
    if k > 0 {
      Pow2Plus(n, k - 1);
      assert Pow2(n) * (2 * Pow2(k - 1)) == 2 * (Pow2(n) * Pow2(k - 1));
    }
  }

  lemma Quotient(val: nat, c: nat)
    requires c > 0 && val < c * c
    ensures val / c < c
  {
    if val / c >= c { Scale(c, c, val / c); }
  }

  lemma Pow2Values()
    ensures Pow2(1) == 2 && Pow2(2) == 4 && Pow2(4) == 0x10 && Pow2(8) == 0x100 && Pow2(16) == 0x1_0000
  {
    Pow2Plus(2, 2);
    Pow2Plus(4, 4);
    Pow2Plus(8, 8);
  }

  lemma TopOfWord(word: nat)
    requires word > 0
    ensures TopBits(word, word, 0)
  {
  }

  lemma OneOnTop(word: nat, shift: nat)
    requires TopBits(word, 1, shift) && word < 0x1_0000_0000
    ensures shift <= 31 && LeadingZeros(word, 31 - shift)
  {
    Pow2Values();
    Pow2Plus(16, 16);
    if shift > 32 { Pow2Monotone(32, shift); }
  }

  /** The narrowing count: each step halves the width that is still looked at. */
  method CountLeadingZeros(word: nat) returns (r: nat)
    requires word < 0x1_0000_0000
    ensures LeadingZeros(word, r)
  {
    hide TopBits, Pow2;
    if word == 0 { return 32; }
    hide LeadingZeros;
    Pow2Values();
    TopOfWord(word);
    var val, shift := NarrowBy(word, word, 0, 16, 0x1_0000);
    val, shift := NarrowBy(word, val, shift, 8, 0x100);
    val, shift := NarrowBy(word, val, shift, 4, 0x10);
    val, shift := NarrowBy(word, val, shift, 2, 4);
    val, shift := NarrowBy(word, val, shift, 1, 2);
    SomethingOnTop(word, val, shift);
    OneOnTop(word, shift);
    r := 31 - shift;
  }

  lemma SomethingOnTop(word: nat, val: nat, shift: nat)
    requires TopBits(word, val, shift)
    ensures val > 0
  {
  }

  lemma Narrow(word: nat, p: nat, val: nat, c: nat)
    requires p * val <= word < p * (val + 1) && c > 0
    ensures (p * c) * (val / c) <= word < (p * c) * (val / c + 1)
  {
    var t, rem := val / c, val % c;
    assert val == c * t + rem;
    assert p * val == (p * c) * t + p * rem;
    assert p * (val + 1) == (p * c) * t + p * (rem + 1);
    Scale(p, rem + 1, c);
    assert (p * c) * (t + 1) == (p * c) * t + p * c;
  }

  lemma Scale(p: nat, x: nat, y: nat)
    requires x <= y
    ensures p * x <= p * y
  {
  }

  // ---------- Has the network changed? ----------

  /** The 32-bit word with one bit for each suite. */
  function WordOf(akm: set<nat>, n: nat := 32): nat {
    if n == 0 then 0 else WordOf(akm, n - 1) + if n - 1 in akm then Pow2(n - 1) else 0
  }

  const ALL_ONES: nat := 0xFFFF_FFFF

  function CodeOf(p: Option<set<nat>>): nat { if p == None then ALL_ONES else WordOf(p.value) }

  lemma {:induction false} WordBounds(akm: set<nat>, n: nat)
    ensures WordOf(akm, n) < Pow2(n)
    ensures forall m :: m in akm && m < n ==> Pow2(m) <= WordOf(akm, n)
  {
    if n > 0 { WordBounds(akm, n - 1); }
  }

  lemma {:induction false} WordAbove(akm: set<nat>, m: nat, n: nat)
    requires m < n && (forall k :: k in akm ==> k <= m)
    ensures WordOf(akm, n) == WordOf(akm, m + 1)
  {
    if n > m + 1 { WordAbove(akm, m, n - 1); }
  }

  /** The leading zeros of a set's word tell its greatest member. */
  lemma LeadingZerosOfSet(akm: set<nat>, m: nat, r: nat)
    requires m in akm && m < 32 && forall k :: k in akm ==> k <= m
    ensures LeadingZeros(WordOf(akm), r) <==> r == 31 - m
  {
    WordAbove(akm, m, 32);
    WordBounds(akm, m + 1);
    assert LeadingZeros(WordOf(akm), 31 - m);
    if LeadingZeros(WordOf(akm), r) { LeadingZerosUnique(WordOf(akm), r, 31 - m); }
  }

  lemma {:induction false} SomeMax(akm: set<nat>) returns (m: nat)
    requires akm != {}
    ensures m in akm && forall k :: k in akm ==> k <= m
    decreases akm
  {
    var x :| x in akm;
    if akm == {x} {
      m := x;
    } else {
      var n := SomeMax(akm - {x});
      m := if n > x then n else x;
      assert forall k :: k in akm ==> k == x || k in akm - {x};
    }
  }

  lemma AllOnesZeros(r: nat)
    ensures LeadingZeros(ALL_ONES, r) <==> r == 0
  {
    Pow2Values();
    Pow2Plus(16, 16);
    assert Pow2(32) == 2 * Pow2(31);
    assert LeadingZeros(ALL_ONES, 0);
    if LeadingZeros(ALL_ONES, r) { LeadingZerosUnique(ALL_ONES, r, 0); }
  }

  /** For a network configured with a set of suites, whose text the supplicant hands back unchanged: the
      comparison of leading zeros sees no change if and only if every suite in the set is one the parser
      knows (or PRE_RSN) and the set is {NONE} or has a suite above PRE_RSN. */
  lemma NetworkUnchangedIff(akm: set<nat>, owe: bool, ft: bool, r: nat, q: nat)
    requires akm != {} && forall k :: k in akm ==> k < 21
    requires LeadingZeros(CodeOf(Parse(Text(AKM_NAMES, akm), owe, ft)), r) && LeadingZeros(WordOf(akm), q)
    ensures r == q <==>
            (forall k :: k in akm ==> k == PRE_RSN || Known(k, owe, ft)) && (akm == {NONE} || exists k :: k in akm && k > PRE_RSN)
  {
    hide Known, Text;
    PrintParse(akm, owe, ft);
    var m := SomeMax(akm);
    LeadingZerosOfSet(akm, m, q);
    if AllKnown(akm, owe, ft, 0) && akm - {PRE_RSN} != {} {
      var back := (akm - {PRE_RSN}) + if PSK in akm then {PRE_RSN} else {};
      var n := SomeMax(back);
      LeadingZerosOfSet(back, n, r);
      if m > PRE_RSN {
        assert m in back;
      } else {
        assert NONE in akm;
        assert n == 0 && (m == 0 ==> akm == {NONE});
      }
    } else {
      AllOnesZeros(r);
      if akm - {PRE_RSN} == {} { assert akm == {PRE_RSN}; }
    }
  }

  /** The suites that are set by default for a passphrase include one the parser does not know, so for
      them the comparison always reports a change. */
  lemma DefaultSuitesAlwaysChanged(owe: bool, ft: bool, r: nat, q: nat)
    requires LeadingZeros(CodeOf(Parse(Text(AKM_NAMES, {PSK, 7, 9}), owe, ft)), r) && LeadingZeros(WordOf({PSK, 7, 9}), q)
    ensures r != q
  {
    NetworkUnchangedIff({PSK, 7, 9}, owe, ft, r, q);
    assert 7 in {PSK, 7, 9} && !Known(7, owe, ft);
  }
}
