/** The DNS responder of src/lwip/port/dnsd.c, against the message format of sections 4.1.1 to 4.1.4 of
    RFC 1035. */
module Dnsd {
  import opened Wrappers

  type Word = w: nat | w < 0x1_0000

  const HEADER := 12
  const ENTRY := 16
  const TYPE_A: Word := 1
  const TTL: Word := 300
  // Offsets above this do not fit a compression pointer.
  const OFFSET_RANGE := 0x4000

  function Be(w: Word): seq<Byte> { [w / 256, w % 256] }

  function FromBe(hi: Byte, lo: Byte): Word { hi * 256 + lo }

  function WordAt(m: seq<Byte>, p: nat): Word
    requires p + 2 <= |m|
  {
    FromBe(m[p], m[p + 1])
  }

  // ---------- Responder ----------

  /** Where the walk over a name that starts at `p` finds its closing zero; None if it leaves the buffer.
      The first length is never compared with zero. */
  function NameEnd(m: seq<Byte>, p: nat): (r: Option<nat>)
    ensures r != None ==> p < r.value < |m| && m[r.value] == 0
    decreases |m| - p
  {
    if p >= |m| then None
    else
      var n := p + m[p] + 1;
      if n >= |m| then None else if m[n] == 0 then Some(n) else NameEnd(m, n)
  }

  method GetQueryNameLen(m: array<Byte>, start: nat) returns (len: nat)
    requires m.Length < 0x1_0000 && NameEnd(m[..], start) != None
    ensures NameEnd(m[..], start) == Some(start + len - 1) && 2 <= len < 0x1_0000
  {
    var s := start;
    len := 0;
    var subLen := m[s];
    s, len := s + subLen + 1, (len + subLen + 1) % 0x1_0000;
    while m[s] != 0
      invariant start < s < m.Length && len == s - start
      invariant NameEnd(m[..], start) == if m[s] == 0 then Some(s) else NameEnd(m[..], s)
      decreases m.Length - s
    {
      subLen := m[s];
      s, len := s + subLen + 1, (len + subLen + 1) % 0x1_0000;
    }
    len := (len + 1) % 0x1_0000;
  }

  /** An answer: a pointer to the name at `offset`, the type and class of the question, a time to live of
      300 seconds, and the interface address. */
  function Entry(offset: nat, typ: Word, cls: Word, ip: seq<Byte>): (r: seq<Byte>)
    requires offset < OFFSET_RANGE && |ip| == 4
    ensures |r| == ENTRY
  {
    Be(0xC000 + offset) + Be(typ) + Be(cls) + Be(0) + Be(TTL) + Be(4) + ip
  }

  /** The answers to `k` questions read from `q` on; None if the walk leaves the buffer. */
  function Answers(m: seq<Byte>, q: nat, k: nat, ip: seq<Byte>): (r: Option<seq<Byte>>)
    requires |m| <= OFFSET_RANGE && |ip| == 4
    ensures r != None ==> |r.value| <= 16 * k
    decreases k
  {
    if k == 0 then Some([])
    else
      var e := NameEnd(m, q);
      if e == None || e.value + 5 > |m| then None
      else
        var rest := Answers(m, e.value + 5, k - 1, ip);
        if rest == None then None
        else if WordAt(m, e.value + 1) == TYPE_A
        then Some(Entry(q, TYPE_A, WordAt(m, e.value + 3), ip) + rest.value)
        else rest
  }

  function QuestionCount(m: seq<Byte>): Word
    requires |m| >= HEADER
  {
    WordAt(m, 4)
  }

  /** The query with the response bit set, if it is long enough to have one. */
  function Responding(query: seq<Byte>): (r: seq<Byte>)
    requires |query| > 2 ==> query[2] < 128
    ensures |r| == |query|
  {
    if |query| > 2 then query[2 := query[2] + 128] else query
  }

  /** The query with the response bit set, the answers after it, and the number of answers written over
      the count field; a datagram may be shorter than the header it is taken to have. */
  function Reply(query: seq<Byte>, answers: seq<Byte>): (r: seq<Byte>)
    requires (|query| > 2 ==> query[2] < 128) && |query| + |answers| >= 8 && |answers| / ENTRY < 0x1_0000
    ensures |r| == |query| + |answers|
  {
    var front := Responding(query);
    (front + answers)[..6] + Be(|answers| / ENTRY) + (front + answers)[8..]
  }

  method PutBytes(a: array<Byte>, at: nat, bytes: seq<Byte>)
    requires at + |bytes| <= a.Length
    modifies a
    ensures a[..at + |bytes|] == old(a[..at]) + bytes
    ensures a[at + |bytes|..] == old(a[at + |bytes|..])
  {
    forall k | 0 <= k < |bytes| { a[at + k] := bytes[k]; }
    assert a[..at + |bytes|] == a[..at] + a[at..at + |bytes|] && a[..at] == old(a[..at]);
  }

  method PutCount(a: array<Byte>, count: Word, len: nat)
    requires 8 <= len <= a.Length
    modifies a
    ensures a[..len] == old(a[..len][..6]) + Be(count) + old(a[..len][8..])
  {
    a[6] := count / 256;
    a[7] := count % 256;
  }

  /** Clears the reply, copies the query into it and sets the response bit. */
  method StartReply(answer: array<Byte>, query: seq<Byte>)
    requires |query| <= answer.Length && answer.Length >= HEADER && (|query| > 2 ==> query[2] < 128)
    modifies answer
    ensures answer[..|query|] == Responding(query)
  {
    forall k | 0 <= k < answer.Length { answer[k] := 0; }
    PutBytes(answer, 0, query);
    assert answer[..|query|] == query;
    ghost var rest := answer[|query|..];
    assert |query| <= 2 ==> answer[2] == rest[2 - |query|];
    answer[2] := SetTop(answer[2]);
  }

  // `|= 0x80`
  function SetTop(b: Byte): Byte { if b < 128 then b + 128 else b }

  /** The queries whose questions are looked at: those with a zero opcode and a clear response bit, which
      are the five top bits of the first flag byte, for which the replies surely fit. */
  predicate Considered(m: seq<Byte>, rxLen: nat, max: nat)
    requires |m| >= HEADER
  {
    rxLen <= max && m[2] < 8 && QuestionCount(m) * ENTRY + rxLen <= max
  }

  /** What the responder does with the first `rxLen` bytes of its receive buffer. */
  method HandleQuery(rx: array<Byte>, rxLen: nat, answer: array<Byte>, ip: seq<Byte>) returns (len: int)
    requires rxLen <= rx.Length && HEADER <= rx.Length <= OFFSET_RANGE && HEADER <= answer.Length && rx != answer && |ip| == 4
    requires Considered(rx[..], rxLen, answer.Length) ==> Answers(rx[..], HEADER, QuestionCount(rx[..]), ip) != None
    modifies answer
    ensures if !Considered(rx[..], rxLen, answer.Length) then
              len == if rxLen <= answer.Length && old(rx[2]) >= 8 then 0 else -1
            else
              var a := Answers(rx[..], HEADER, QuestionCount(rx[..]), ip).value;
              if a == [] then len == 0
              else HEADER <= len == rxLen + |a| <= answer.Length && answer[..len] == Reply(rx[..rxLen], a)
  {
    hide Answers, FromBe;
    if rxLen > answer.Length { return -1; }
    if rx[2] / 8 % 16 != 0 || rx[2] / 128 == 1 { return 0; }
    var queryNum := FromBe(rx[4], rx[5]);
    ghost var m := rx[..];
    assert queryNum == QuestionCount(m);
    if queryNum * ENTRY + rxLen > answer.Length { return -1; }
    StartReply(answer, rx[..rxLen]);
    ghost var front := answer[..rxLen];
    assert rx[..] == m;
    var answerNum := AppendAnswers(rx, rxLen, answer, ip, queryNum);
    if answerNum == 0 { return 0; }
    len := rxLen + answerNum * ENTRY;
    var count: Word := answerNum;
    PutCount(answer, count, len);
    ghost var a := Answers(m, HEADER, queryNum, ip).value;
    assert answer[..len] == (front + a)[..6] + Be(|a| / ENTRY) + (front + a)[8..];
  }

  /** One pass over the questions, appending an answer for each address question. */
  method AppendAnswers(rx: array<Byte>, rxLen: nat, answer: array<Byte>, ip: seq<Byte>, queryNum: Word) returns (answerNum: nat)
    requires rx.Length <= OFFSET_RANGE && rx != answer && |ip| == 4 && rxLen + queryNum * ENTRY <= answer.Length
    requires Answers(rx[..], HEADER, queryNum, ip) != None
    modifies answer
    ensures var a := Answers(rx[..], HEADER, queryNum, ip).value;
            && |a| == ENTRY * answerNum && answerNum <= queryNum
            && answer[..rxLen + |a|] == old(answer[..rxLen]) + a
  {
    hide Answers, NameEnd, Entry;
    var query, i := HEADER, 0;
    answerNum := 0;
    ghost var front := answer[..rxLen];
    ghost var all := Answers(rx[..], HEADER, queryNum, ip).value;
    ghost var done: seq<Byte> := [];
    while i < queryNum
      invariant 0 <= i <= queryNum && 0 <= answerNum <= i && HEADER <= query
      invariant |done| == ENTRY * answerNum && answer[..rxLen + |done|] == front + done
      invariant var rest := Answers(rx[..], query, queryNum - i, ip); rest != None && all == done + rest.value
    {
      AnswersStep(rx[..], query, queryNum - i, ip);
      var nameLen := GetQueryNameLen(rx, query);
      if nameLen == 0 { return; }
      var at := query + nameLen;
      if FromBe(rx[at], rx[at + 1]) == TYPE_A {
        var entry := Entry(query, TYPE_A, FromBe(rx[at + 2], rx[at + 3]), ip);
        PutBytes(answer, rxLen + ENTRY * answerNum, entry);
        done := done + entry;
        answerNum := answerNum + 1;
      }
      query := at + 4;
      i := i + 1;
    }
    AnswersNone(rx[..], query, ip);
    assert all == done;
  }

  lemma AnswersStep(m: seq<Byte>, q: nat, k: nat, ip: seq<Byte>)
    requires |m| <= OFFSET_RANGE && |ip| == 4 && k > 0 && Answers(m, q, k, ip) != None
    ensures var e := NameEnd(m, q);
            && e != None && e.value + 5 <= |m| && Answers(m, e.value + 5, k - 1, ip) != None
            && Answers(m, q, k, ip).value ==
               (if WordAt(m, e.value + 1) == TYPE_A then Entry(q, TYPE_A, WordAt(m, e.value + 3), ip) else [])
               + Answers(m, e.value + 5, k - 1, ip).value
  {
    hide NameEnd, Entry, WordAt;
    AnswersFrom(m, q, k, ip, NameEnd(m, q).value);
  }

  lemma AnswersFrom(m: seq<Byte>, q: nat, k: nat, ip: seq<Byte>, e: nat)
    requires |m| <= OFFSET_RANGE && |ip| == 4 && k > 0 && NameEnd(m, q) == Some(e) && e + 5 <= |m|
    requires Answers(m, e + 5, k - 1, ip) != None
    ensures Answers(m, q, k, ip) ==
            Some((if WordAt(m, e + 1) == TYPE_A then Entry(q, TYPE_A, WordAt(m, e + 3), ip) else [])
                 + Answers(m, e + 5, k - 1, ip).value)
  {
    var rest := Answers(m, e + 5, k - 1, ip);
    assert [] + rest.value == rest.value;
  }

  lemma AnswersNone(m: seq<Byte>, q: nat, ip: seq<Byte>)
    requires |m| <= OFFSET_RANGE && |ip| == 4
    ensures Answers(m, q, 0, ip) == Some([])
  {
  }

  // ---------- The message format ----------

  type Label = s: seq<Byte> | 1 <= |s| <= 63 witness [0]

  datatype Question = Question(name: seq<Label>, typ: Word, cls: Word)

  datatype Record = Record(name: seq<Label>, typ: Word, cls: Word, ttl: nat, data: seq<Byte>)

  function NameBytes(name: seq<Label>): (r: seq<Byte>)
    ensures |r| >= 1
  {
    if name == [] then [0] else [|name[0]|] + name[0] + NameBytes(name[1..])
  }

  function QuestionBytes(q: Question): seq<Byte> { NameBytes(q.name) + Be(q.typ) + Be(q.cls) }

  function QuestionsBytes(qs: seq<Question>): seq<Byte> {
    if qs == [] then [] else QuestionBytes(qs[0]) + QuestionsBytes(qs[1..])
  }

  // A reader of the format, independent of the responder.

  datatype Parsed<T> = Parsed(value: T, next: nat) | Malformed

  function ReadLabels(m: seq<Byte>, p: nat): Parsed<seq<Label>>
    decreases |m| - p
  {
    if p >= |m| then Malformed
    else if m[p] == 0 then Parsed([], p + 1)
    else if m[p] > 63 || p + 1 + m[p] > |m| then Malformed
    else
      var rest := ReadLabels(m, p + 1 + m[p]);
      var first: Label := m[p + 1..p + 1 + m[p]];
      if rest == Malformed then Malformed else Parsed([first] + rest.value, rest.next)
  }

  /** A name: labels, or one pointer to labels. */
  function ReadName(m: seq<Byte>, p: nat): Parsed<seq<Label>> {
    if p + 1 < |m| && m[p] >= 192 then
      var target := ReadLabels(m, WordAt(m, p) - 0xC000);
      if target == Malformed then Malformed else Parsed(target.value, p + 2)
    else ReadLabels(m, p)
  }

  function ReadQuestions(m: seq<Byte>, p: nat, k: nat): Parsed<seq<Question>>
    decreases k
  {
    if k == 0 then Parsed([], p)
    else
      var name := ReadName(m, p);
      if name == Malformed || name.next + 4 > |m| then Malformed
      else
        var rest := ReadQuestions(m, name.next + 4, k - 1);
        if rest == Malformed then Malformed
        else Parsed([Question(name.value, WordAt(m, name.next), WordAt(m, name.next + 2))] + rest.value, rest.next)
  }

  function ReadRecords(m: seq<Byte>, p: nat, k: nat): Parsed<seq<Record>>
    decreases k
  {
    if k == 0 then Parsed([], p)
    else
      var name := ReadName(m, p);
      if name == Malformed || name.next + 10 > |m| then Malformed
      else
        var n := name.next;
        var size := WordAt(m, n + 8);
        if n + 10 + size > |m| then Malformed
        else
          var rest := ReadRecords(m, n + 10 + size, k - 1);
          if rest == Malformed then Malformed
          else
            Parsed([Record(name.value, WordAt(m, n), WordAt(m, n + 2), WordAt(m, n + 4) * 0x1_0000 + WordAt(m, n + 6),
                           m[n + 10..n + 10 + size])] + rest.value, rest.next)
  }

  // ---------- What the reply says ----------

  /** The records the server owes: one for each address question, in order. */
  function Owed(qs: seq<Question>, ip: seq<Byte>): (r: seq<Record>)
    ensures |r| <= |qs|
  {
    if qs == [] then []
    else if qs[0].typ == 1 then [Record(qs[0].name, 1, qs[0].cls, 300, ip)] + Owed(qs[1..], ip)
    else Owed(qs[1..], ip)
  }

  /** The answer bytes for questions that start at `p`. */
  function Entries(qs: seq<Question>, p: nat, ip: seq<Byte>): (r: seq<Byte>)
    requires p + |QuestionsBytes(qs)| <= OFFSET_RANGE && |ip| == 4
    ensures |r| == ENTRY * |Owed(qs, ip)|
  {
    if qs == [] then []
    else
      (if qs[0].typ == TYPE_A then Entry(p, TYPE_A, qs[0].cls, ip) else [])
      + Entries(qs[1..], p + |QuestionBytes(qs[0])|, ip)
  }

  // `m` has the bytes `s` at `p`.
  predicate Has(m: seq<Byte>, p: nat, s: seq<Byte>) { p + |s| <= |m| && m[p..p + |s|] == s }

  lemma HasSplit(m: seq<Byte>, p: nat, a: seq<Byte>, b: seq<Byte>)
    requires Has(m, p, a + b)
    ensures Has(m, p, a) && Has(m, p + |a|, b)
  {
    assert (a + b)[..|a|] == a && (a + b)[|a|..] == b;
    assert m[p..p + |a|] == m[p..p + |a + b|][..|a|];
    assert m[p + |a|..p + |a| + |b|] == m[p..p + |a + b|][|a|..];
  }

  lemma HasAt(m: seq<Byte>, p: nat, s: seq<Byte>, k: nat)
    requires Has(m, p, s) && k < |s|
    ensures m[p + k] == s[k]
  {
    assert m[p..p + |s|][k] == s[k];
  }

  lemma HasWord(m: seq<Byte>, p: nat, w: Word)
    requires Has(m, p, Be(w))
    ensures p + 2 <= |m| && WordAt(m, p) == w
  {
    HasAt(m, p, Be(w), 0);
    HasAt(m, p, Be(w), 1);
  }

  lemma HasName(m: seq<Byte>, p: nat, name: seq<Label>)
    requires Has(m, p, NameBytes(name)) && name != []
    ensures p < |m| && m[p] == |name[0]| && Has(m, p + 1, name[0]) && Has(m, p + 1 + |name[0]|, NameBytes(name[1..]))
  {
    HasAt(m, p, NameBytes(name), 0);
    HasSplit(m, p, [|name[0]|] + name[0], NameBytes(name[1..]));
    HasSplit(m, p, [|name[0]|], name[0]);
  }

  lemma {:induction false} NameRead(m: seq<Byte>, p: nat, name: seq<Label>)
    requires Has(m, p, NameBytes(name))
    ensures ReadLabels(m, p) == Parsed(name, p + |NameBytes(name)|)
    ensures m[p] < 64
    decreases |name|
  {
    if name == [] {
      HasAt(m, p, [0], 0);
    } else {
      HasName(m, p, name);
      NameRead(m, p + 1 + |name[0]|, name[1..]);
      assert [name[0]] + name[1..] == name;
    }
  }

  /** The responder's walk finds the end of every name but the root. */
  lemma {:induction false} NameWalked(m: seq<Byte>, p: nat, name: seq<Label>)
    requires Has(m, p, NameBytes(name)) && name != []
    ensures NameEnd(m, p) == Some(p + |NameBytes(name)| - 1)
    decreases |name|
  {
    HasName(m, p, name);
    var n := p + 1 + |name[0]|;
    if name[1..] == [] {
      HasAt(m, n, [0], 0);
    } else {
      HasName(m, n, name[1..]);
      NameWalked(m, n, name[1..]);
    }
  }

  /** The root name alone is misread: its zero is taken for a length and stepped over. */
  lemma WalkedRightIff(m: seq<Byte>, p: nat, name: seq<Label>)
    requires Has(m, p, NameBytes(name))
    ensures NameEnd(m, p) == Some(p + |NameBytes(name)| - 1) <==> name != []
  {
    if name != [] { NameWalked(m, p, name); }
  }

  lemma QuestionSplit(m: seq<Byte>, p: nat, qs: seq<Question>)
    requires qs != [] && Has(m, p, QuestionsBytes(qs))
    ensures var n := p + |NameBytes(qs[0].name)|;
            && Has(m, p, NameBytes(qs[0].name)) && n + 4 <= |m|
            && WordAt(m, n) == qs[0].typ && WordAt(m, n + 2) == qs[0].cls
            && n + 4 == p + |QuestionBytes(qs[0])| && Has(m, n + 4, QuestionsBytes(qs[1..]))
  {
    hide NameBytes, Has, Be, WordAt;
    var q := qs[0];
    var n := p + |NameBytes(q.name)|;
    HasSplit(m, p, QuestionBytes(q), QuestionsBytes(qs[1..]));
    HasSplit(m, p, NameBytes(q.name) + Be(q.typ), Be(q.cls));
    HasSplit(m, p, NameBytes(q.name), Be(q.typ));
    BeLength(q.typ);
    BeLength(q.cls);
    HasWord(m, n, q.typ);
    HasWord(m, n + 2, q.cls);
  }

  lemma BeLength(w: Word)
    ensures |Be(w)| == 2
  {
  }

  predicate NonRoot(qs: seq<Question>) { forall k :: 0 <= k < |qs| ==> qs[k].name != [] }

  /** For questions with non-root, uncompressed names the responder's answers are the owed entries. */
  lemma {:induction false} AnswersAreEntries(m: seq<Byte>, p: nat, qs: seq<Question>, ip: seq<Byte>)
    requires |m| <= OFFSET_RANGE && |ip| == 4 && NonRoot(qs) && Has(m, p, QuestionsBytes(qs))
    ensures Answers(m, p, |qs|, ip) == Some(Entries(qs, p, ip))
    decreases |qs|
  {
    hide NameBytes, QuestionBytes, NameEnd, Entry, Answers, Has, WordAt;
    if qs == [] {
      AnswersNone(m, p, ip);
    } else {
      hide Entries, Owed, QuestionsBytes;
      var q, n := qs[0], p + |NameBytes(qs[0].name)|;
      QuestionSplit(m, p, qs);
      NameWalked(m, p, q.name);
      QuestionInside(m, p, qs);
      OwedStep(qs, p, ip);
      AnswersAreEntries(m, n + 4, qs[1..], ip);
      AnswersFrom(m, p, |qs|, ip, n - 1);
      assert [] + Entries(qs[1..], n + 4, ip) == Entries(qs[1..], n + 4, ip);
    }
  }

  lemma QuestionInside(m: seq<Byte>, p: nat, qs: seq<Question>)
    requires Has(m, p, QuestionsBytes(qs))
    ensures p + |QuestionsBytes(qs)| <= |m|
  {
  }

  lemma PlainRead(m: seq<Byte>, p: nat, name: seq<Label>)
    requires Has(m, p, NameBytes(name))
    ensures ReadName(m, p) == Parsed(name, p + |NameBytes(name)|)
  {
    hide NameBytes, ReadLabels, Has;
    NameRead(m, p, name);
  }

  lemma QuestionRead(m: seq<Byte>, p: nat, k: nat, name: seq<Label>, n: nat, rest: Parsed<seq<Question>>)
    requires k > 0 && ReadName(m, p) == Parsed(name, n) && n + 4 <= |m|
    requires rest == ReadQuestions(m, n + 4, k - 1) && rest.Parsed?
    ensures ReadQuestions(m, p, k) == Parsed([Question(name, WordAt(m, n), WordAt(m, n + 2))] + rest.value, rest.next)
  {
    hide ReadName, WordAt;
  }

  lemma NoQuestionRead(m: seq<Byte>, p: nat)
    ensures ReadQuestions(m, p, 0) == Parsed([], p)
  {
  }

  lemma {:induction false} QuestionsRead(m: seq<Byte>, p: nat, qs: seq<Question>)
    requires Has(m, p, QuestionsBytes(qs))
    ensures ReadQuestions(m, p, |qs|) == Parsed(qs, p + |QuestionsBytes(qs)|)
    decreases |qs|
  {
    hide NameBytes, QuestionBytes, ReadName, ReadQuestions, Has, WordAt;
    if qs == [] {
      NoQuestionRead(m, p);
    } else {
      var q, n := qs[0], p + |NameBytes(qs[0].name)|;
      QuestionSplit(m, p, qs);
      PlainRead(m, p, q.name);
      QuestionsRead(m, n + 4, qs[1..]);
      QuestionRead(m, p, |qs|, q.name, n, ReadQuestions(m, n + 4, |qs| - 1));
      assert [Question(q.name, q.typ, q.cls)] + qs[1..] == qs;
    }
  }

  /** One answer reads back as a record with the name its pointer leads to. */
  lemma EntryRead(m: seq<Byte>, at: nat, p: nat, q: Question, ip: seq<Byte>, k: nat)
    requires p < OFFSET_RANGE && |ip| == 4 && Has(m, at, Entry(p, q.typ, q.cls, ip)) && Has(m, p, NameBytes(q.name)) && k > 0
    ensures ReadRecords(m, at, k) ==
            var rest := ReadRecords(m, at + ENTRY, k - 1);
            if rest == Malformed then Malformed
            else Parsed([Record(q.name, q.typ, q.cls, TTL, ip)] + rest.value, rest.next)
  {
    hide NameBytes, ReadName, Has, Entry, Be, WordAt;
    EntryFields(m, at, p, q.typ, q.cls, ip);
    PointerRead(m, at, p, q.name);
  }

  lemma PointerRead(m: seq<Byte>, at: nat, p: nat, name: seq<Label>)
    requires at + 2 <= |m| && WordAt(m, at) == 0xC000 + p && p < OFFSET_RANGE && Has(m, p, NameBytes(name))
    ensures ReadName(m, at) == Parsed(name, at + 2)
  {
    hide NameBytes, ReadLabels, Has;
    NameRead(m, p, name);
  }

  lemma EntryFields(m: seq<Byte>, at: nat, p: nat, typ: Word, cls: Word, ip: seq<Byte>)
    requires p < OFFSET_RANGE && |ip| == 4 && Has(m, at, Entry(p, typ, cls, ip))
    ensures at + ENTRY <= |m| && WordAt(m, at) == 0xC000 + p && WordAt(m, at + 2) == typ && WordAt(m, at + 4) == cls
    ensures WordAt(m, at + 6) == 0 && WordAt(m, at + 8) == TTL && WordAt(m, at + 10) == 4 && m[at + 12..at + 16] == ip
  {
    var a1 := Be(0xC000 + p);
    var a2 := a1 + Be(typ);
    var a3 := a2 + Be(cls);
    var a4 := a3 + Be(0);
    var a5 := a4 + Be(TTL);
    var a6 := a5 + Be(4);
    assert |a1| == 2 && |a2| == 4 && |a3| == 6 && |a4| == 8 && |a5| == 10 && |a6| == 12;
    assert Has(m, at, a6 + ip);
    hide Be, WordAt, Has;
    HasSplit(m, at, a6, ip);
    HasSplit(m, at, a5, Be(4));
    HasSplit(m, at, a4, Be(TTL));
    HasSplit(m, at, a3, Be(0));
    HasSplit(m, at, a2, Be(cls));
    HasSplit(m, at, a1, Be(typ));
    HasWord(m, at, 0xC000 + p);
    HasWord(m, at + 2, typ);
    HasWord(m, at + 4, cls);
    HasWord(m, at + 6, 0);
    HasWord(m, at + 8, TTL);
    HasWord(m, at + 10, 4);
    HasIs(m, at + 12, ip);
  }

  lemma HasIs(m: seq<Byte>, p: nat, s: seq<Byte>)
    requires Has(m, p, s)
    ensures p + |s| <= |m| && m[p..p + |s|] == s
  {
  }

  lemma OwedStep(qs: seq<Question>, p: nat, ip: seq<Byte>)
    requires qs != [] && p + |QuestionsBytes(qs)| <= OFFSET_RANGE && |ip| == 4
    ensures var n := p + |QuestionBytes(qs[0])|;
            && n + |QuestionsBytes(qs[1..])| <= OFFSET_RANGE
            && if qs[0].typ == TYPE_A
               then Entries(qs, p, ip) == Entry(p, TYPE_A, qs[0].cls, ip) + Entries(qs[1..], n, ip)
                    && Owed(qs, ip) == [Record(qs[0].name, TYPE_A, qs[0].cls, TTL, ip)] + Owed(qs[1..], ip)
               else Entries(qs, p, ip) == Entries(qs[1..], n, ip) && Owed(qs, ip) == Owed(qs[1..], ip)
  {
    hide Entry, QuestionBytes;
    assert [] + Entries(qs[1..], p + |QuestionBytes(qs[0])|, ip) == Entries(qs[1..], p + |QuestionBytes(qs[0])|, ip);
  }

  lemma NothingRead(m: seq<Byte>, at: nat)
    ensures ReadRecords(m, at, 0) == Parsed([], at)
  {
  }

  /** The owed entries read back as the owed records. */
  lemma {:induction false} RecordsRead(m: seq<Byte>, at: nat, p: nat, qs: seq<Question>, ip: seq<Byte>)
    requires p + |QuestionsBytes(qs)| <= OFFSET_RANGE && |ip| == 4
    requires Has(m, p, QuestionsBytes(qs)) && Has(m, at, Entries(qs, p, ip))
    ensures ReadRecords(m, at, |Owed(qs, ip)|) == Parsed(Owed(qs, ip), at + |Entries(qs, p, ip)|)
    decreases |qs|
  {
    hide NameBytes, QuestionBytes, Entry, ReadRecords, Has;
    if qs == [] {
      NothingRead(m, at);
    } else {
      hide Owed, Entries, QuestionsBytes;
      var n := p + |QuestionBytes(qs[0])|;
      OwedStep(qs, p, ip);
      QuestionSplit(m, p, qs);
      if qs[0].typ == TYPE_A {
        HasSplit(m, at, Entry(p, TYPE_A, qs[0].cls, ip), Entries(qs[1..], n, ip));
        RecordsRead(m, at + ENTRY, n, qs[1..], ip);
        NamesInRange(qs);
        EntryRead(m, at, p, qs[0], ip, |Owed(qs, ip)|);
      } else {
        RecordsRead(m, at, n, qs[1..], ip);
      }
    }
  }

  lemma NamesInRange(qs: seq<Question>)
    requires qs != []
    ensures |QuestionsBytes(qs)| > 0
  {
  }

  /** A message: a header whose question count is right, and the questions. */
  predicate WellFormed(header: seq<Byte>, qs: seq<Question>) {
    |header| == 12 && NonRoot(qs) && var hi: nat, lo: nat := header[4], header[5]; 256 * hi + lo == |qs|
  }

  lemma HasReply(header: seq<Byte>, body: seq<Byte>, a: seq<Byte>)
    requires |header| == HEADER && header[2] < 128 && |a| / ENTRY < 0x1_0000
    ensures var r := Reply(header + body, a);
            && Has(r, HEADER, body) && Has(r, HEADER + |body|, a) && Has(r, 6, Be(|a| / ENTRY))
            && r[..2] == header[..2] && r[2] == header[2] + 128 && r[3..6] == header[3..6] && r[8..HEADER] == header[8..]
  {
    var query := header + body;
    var front := query[2 := query[2] + 128];
    var whole := front + a;
    var r := Reply(query, a);
    assert forall k :: 0 <= k < |r| && k != 6 && k != 7 ==> r[k] == whole[k];
    assert forall k :: 0 <= k < |query| && k != 2 ==> whole[k] == query[k];
    assert r[HEADER..HEADER + |body|] == body;
    assert r[HEADER + |body|..] == a;
    assert r[6..8] == Be(|a| / ENTRY);
  }

  /** The answer to every well-formed query, wherever the receive buffer holds it: the same header with the
      response bit and the answer count set; the same questions; and for each address question, in order,
      one record under the name of that question with the interface address. */
  lemma ReplyIsRight(header: seq<Byte>, qs: seq<Question>, m: seq<Byte>, ip: seq<Byte>)
    requires WellFormed(header, qs) && header[2] < 128 && header + QuestionsBytes(qs) <= m && |m| <= OFFSET_RANGE && |ip| == 4
    ensures Answers(m, HEADER, |qs|, ip) == Some(Entries(qs, HEADER, ip))
    ensures var query := header + QuestionsBytes(qs);
            var r := Reply(query, Entries(qs, HEADER, ip));
            && |r| == |query| + ENTRY * |Owed(qs, ip)|
            && r[..2] == header[..2] && r[2] == header[2] + 128 && r[3..6] == header[3..6] && r[8..HEADER] == header[8..]
            && WordAt(r, 6) == |Owed(qs, ip)|
            && ReadQuestions(r, HEADER, |qs|) == Parsed(qs, |query|)
            && ReadRecords(r, |query|, |Owed(qs, ip)|) == Parsed(Owed(qs, ip), |r|)
  {
    hide Reply, Entries, Owed, QuestionsBytes, ReadQuestions, ReadRecords, Has, Be, Answers;
    var body := QuestionsBytes(qs);
    BodyInside(header, body, m);
    AnswersAreEntries(m, HEADER, qs, ip);
    var a := Entries(qs, HEADER, ip);
    HasReply(header, body, a);
    var r := Reply(header + body, a);
    QuestionsRead(r, HEADER, qs);
    RecordsRead(r, HEADER + |body|, HEADER, qs, ip);
    HasWord(r, 6, |a| / ENTRY);
  }

  lemma BodyInside(header: seq<Byte>, body: seq<Byte>, m: seq<Byte>)
    requires |header| == HEADER && header + body <= m
    ensures Has(m, HEADER, body)
  {
    assert m[HEADER..HEADER + |body|] == (header + body)[HEADER..];
  }

  lemma {:induction false} NothingOwedIff(qs: seq<Question>, ip: seq<Byte>)
    ensures Owed(qs, ip) == [] <==> forall k :: 0 <= k < |qs| ==> qs[k].typ != 1
    decreases |qs|
  {
    if qs != [] {
      NothingOwedIff(qs[1..], ip);
      assert qs[0].typ != 1 && Owed(qs[1..], ip) == [] ==> forall k :: 0 < k < |qs| ==> qs[k] == qs[1..][k - 1];
      assert forall k :: 0 <= k < |qs[1..]| ==> qs[1..][k] == qs[k + 1];
    }
  }

  /** The answer to a well-formed query, as a reader of the format finds it. */
  predicate Answered(r: seq<Byte>, header: seq<Byte>, qs: seq<Question>, ip: seq<Byte>)
    requires |header| == 12 && header[2] < 128 && |r| >= 12
  {
    var n := |header + QuestionsBytes(qs)|;
    && |r| == n + 16 * |Owed(qs, ip)|
    && r[..2] == header[..2] && r[2] == header[2] + 128 && r[3..6] == header[3..6] && r[8..12] == header[8..]
    && (var hi: nat, lo: nat := r[6], r[7]; 256 * hi + lo == |Owed(qs, ip)|)
    && ReadQuestions(r, 12, |qs|) == Parsed(qs, n) && ReadRecords(r, n, |Owed(qs, ip)|) == Parsed(Owed(qs, ip), |r|)
  }

  /** What becomes of every well-formed message in the receive buffer, whatever lies behind it: one with an
      opcode or the response bit set is passed over; a query whose answers might not fit fails; of the other
      queries exactly those without an address question stay unanswered. */
  method AnswerMessage(rx: array<Byte>, rxLen: nat, answer: array<Byte>, ip: seq<Byte>, ghost header: seq<Byte>, ghost qs: seq<Question>)
    returns (len: int)
    requires rx.Length <= 0x4000 && 12 <= answer.Length && rx != answer && |ip| == 4
    requires WellFormed(header, qs) && rxLen == |header + QuestionsBytes(qs)| <= rx.Length && rx[..rxLen] == header + QuestionsBytes(qs)
    modifies answer
    ensures header[2] >= 8 ==> len == if rxLen <= answer.Length then 0 else -1
    ensures header[2] < 8 && rxLen + 16 * |qs| > answer.Length ==> len == -1
    ensures header[2] < 8 && rxLen + 16 * |qs| <= answer.Length ==>
              if forall k :: 0 <= k < |qs| ==> qs[k].typ != 1 then len == 0
              else 12 <= len <= answer.Length && Answered(answer[..len], header, qs, ip)
  {
    hide Answers, Reply, ReadQuestions, ReadRecords, Entries, Owed, QuestionsBytes, NonRoot;
    ghost var m := rx[..];
    assert m[..rxLen] == rx[..rxLen];
    assert m[2] == m[..rxLen][2] && m[4] == m[..rxLen][4] && m[5] == m[..rxLen][5];
    assert QuestionCount(m) == |qs|;
    if header[2] < 128 {
      ReplyIsRight(header, qs, m, ip);
      NothingOwedIff(qs, ip);
    }
    len := HandleQuery(rx, rxLen, answer, ip);
  }
}
