/** The station configuration of src/wifi_manager/wifi_wpa.c: the builder that writes one long string
    under a byte budget, and the loop that cuts it at semicolons into SET_NETWORK arguments. */
module NetworkConfig {
  import opened Wrappers
  import opened Splitting
  import opened KeyMgmt

  // ---------- What is asked for ----------

  const SHA256_PSK: nat := 7
  const SAE: nat := 9
  const OWE: nat := 17
  const FT_PSK: nat := 5
  const TKIP: nat := 1
  const CCMP: nat := 2

  /** The user's settings; the passphrase is a C string, so it holds no NUL. */
  datatype Settings = Settings(ssid: string, bssid: seq<nat>, akm: set<nat>, pairwise: set<nat>, group: set<nat>,
                               passphrase: string, mfpr: bool)
  {
    predicate Valid() {
      |ssid| <= 255 && |bssid| == 6 && (forall k :: 0 <= k < 6 ==> bssid[k] < 256) && '\0' !in passphrase
    }
  }

  /** What the device supports and what is built in. */
  datatype Platform = Platform(ciphers: set<nat>, ft: bool, mfp: bool)

  /** The suites that are configured, the defaults filled in and the unsupported ones removed. */
  function Suites(c: Settings, p: Platform): set<nat> {
    if c.akm == {} then if |c.passphrase| < 8 then {NONE} else {PSK, SHA256_PSK, SAE}
    else
      (if c.akm == {PRE_RSN} then {NONE} else c.akm)
      * ({NONE, PSK, SHA256_PSK, SAE, OWE} + if p.ft then {FT_PSK} else {})
  }

  predicate UsesCiphers(c: Settings, p: Platform) { Suites(c, p) * {PSK, SAE, OWE} != {} }

  function Allowed(wanted: set<nat>, p: Platform): set<nat> {
    if wanted == {} then p.ciphers else wanted * p.ciphers
  }

  predicate Supported(c: Settings, p: Platform) {
    Suites(c, p) != {} && (UsesCiphers(c, p) ==> Allowed(c.pairwise, p) != {} && Allowed(c.group, p) != {})
  }

  predicate UsesKey(c: Settings, p: Platform) { c.passphrase != "" || OWE in Suites(c, p) }

  predicate UsesWep(c: Settings, p: Platform) {
    UsesKey(c, p) && NONE in Suites(c, p) && |c.passphrase| in {5, 13, 16}
  }

  predicate UsesPsk(c: Settings, p: Platform) {
    UsesKey(c, p) && !UsesWep(c, p) && Suites(c, p) * {PSK, SAE} != {}
  }

  function Hex(n: nat): string
    requires n < 256
  {
    var digits := "0123456789abcdef";
    [digits[n / 16], digits[n % 16]]
  }

  function MacText(m: seq<nat>): string
    requires |m| == 6 && forall k :: 0 <= k < 6 ==> m[k] < 256
  {
    Hex(m[0]) + ":" + Hex(m[1]) + ":" + Hex(m[2]) + ":" + Hex(m[3]) + ":" + Hex(m[4]) + ":" + Hex(m[5])
  }

  function SsidArgs(c: Settings): seq<string> { ["ssid \"" + c.ssid + "\""] }

  function ProtoArgs(c: Settings): seq<string> {
    if c.akm != {} && PRE_RSN !in c.akm then ["proto RSN"] else []
  }

  function SuiteArgs(c: Settings, p: Platform): seq<string> { ["key_mgmt" + Text(AKM_NAMES, Suites(c, p))] }

  function CipherArgs(word: string, chosen: set<nat>): seq<string> {
    if chosen == {TKIP, CCMP} then [] else [word + Text(CIPHER_NAMES, chosen)]
  }

  function AllCipherArgs(c: Settings, p: Platform): seq<string> {
    if UsesCiphers(c, p)
    then CipherArgs("pairwise", Allowed(c.pairwise, p)) + CipherArgs("group", Allowed(c.group, p)) else []
  }

  function KeyArgs(c: Settings, p: Platform): seq<string> {
    if UsesWep(c, p) then ["wep_key0 \"" + c.passphrase + "\"", "auth_alg OPEN SHARED"]
    else if UsesPsk(c, p) then ["psk \"" + c.passphrase + "\""]
    else []
  }

  function MfpArgs(c: Settings, p: Platform): seq<string> {
    if UsesKey(c, p) && p.mfp then [if c.mfpr then "ieee80211w 2" else "ieee80211w 1"] else []
  }

  // Only the first three bytes decide whether there is a BSSID.
  function BssidArgs(c: Settings): seq<string>
    requires c.Valid()
  {
    if c.bssid[0] != 0 || c.bssid[1] != 0 || c.bssid[2] != 0 then ["bssid " + MacText(c.bssid)] else []
  }

  /** The SET_NETWORK arguments that are meant, in order. */
  function Arguments(c: Settings, p: Platform): seq<string>
    requires c.Valid()
  {
    SsidArgs(c) + ProtoArgs(c) + SuiteArgs(c, p) + AllCipherArgs(c, p) + KeyArgs(c, p) + MfpArgs(c, p)
    + BssidArgs(c) + ["scan_ssid 1"]
  }

  // ---------- Arguments in one string ----------

  function Joined(args: seq<string>): string {
    if args == [] then "" else args[0] + ";" + Joined(args[1..])
  }

  lemma {:induction false} JoinedAppend(a: seq<string>, b: seq<string>)
    ensures Joined(a + b) == Joined(a) + Joined(b)
    decreases |a|
  {
    if a == [] {
      assert a + b == b;
    } else {
      JoinedAppend(a[1..], b);
      assert (a + b)[1..] == a[1..] + b;
    }
  }

  lemma JoinedOne(arg: string)
    ensures Joined([arg]) == arg + ";"
  {
    assert [arg][1..] == [];
  }

  lemma JoinedTwo(a: string, b: string)
    ensures Joined([a, b]) == a + ";" + b + ";"
  {
    assert [a, b][1..] == [b];
    JoinedOne(b);
  }

  // ---------- Builder ----------

  const BUDGET: nat := 384

  /** Appends by memcpy: the piece may use up all that is left. */
  method Copy(buf: array<char>, at: nat, left: int, piece: string) returns (ok: bool, at': nat, left': int)
    requires at + left == BUDGET && left >= 0 && buf.Length == BUDGET + 1
    modifies buf
    ensures ok <==> |piece| <= left
    ensures at' + left' == BUDGET && left' >= 0
    ensures ok ==> at' == at + |piece| && buf[..at'] == old(buf[..at]) + piece
  {
    if left < |piece| { return false, at, left; }
    forall k | 0 <= k < |piece| { buf[at + k] := piece[k]; }
    at', left', ok := at + |piece|, left - |piece|, true;
    assert forall k :: 0 <= k < |piece| ==> buf[at..at'][k] == piece[k];
    assert buf[at..at'] == piece;
    assert buf[..at'] == buf[..at] + buf[at..at'] && buf[..at] == old(buf[..at]);
  }

  /** Appends by snprintf, which cuts what does not fit; the piece and a NUL must fit. */
  method Format(buf: array<char>, at: nat, left: int, piece: string) returns (ok: bool, at': nat, left': int)
    requires at + left == BUDGET && left > 0 && buf.Length == BUDGET + 1
    modifies buf
    ensures ok <==> |piece| < left
    ensures at' + left' == BUDGET && left' > 0
    ensures ok ==> at' == at + |piece| && buf[..at'] == old(buf[..at]) + piece
  {
    var n := if |piece| < left then |piece| else left - 1;
    forall k | 0 <= k < n { buf[at + k] := piece[k]; }
    assert forall k :: 0 <= k < n ==> buf[at + k] == piece[k];
    buf[at + n] := '\0';
    if |piece| >= left { return false, at, left; }
    at', left', ok := at + n, left - n, true;
    assert forall k :: 0 <= k < n ==> buf[at..at'][k] == piece[k];
    assert buf[at..at'] == piece;
    assert buf[..at'] == buf[..at] + buf[at..at'] && buf[..at] == old(buf[..at]);
  }

  /** A word and the printed names after it, as one argument. */
  method PutNames(buf: array<char>, at: nat, left: int, word: string, names: seq<string>, chosen: set<nat>)
    returns (ok: bool, at': nat, left': int)
    requires at + left == BUDGET && left > 0 && buf.Length == BUDGET + 1
    modifies buf
    ensures ok <==> |Joined([word + Text(names, chosen)])| < left
    ensures at' + left' == BUDGET && left' >= 0
    ensures ok ==> left' > 0 && buf[..at'] == old(buf[..at]) + Joined([word + Text(names, chosen)])
  {
    hide Text, Joined;
    JoinedOne(word + Text(names, chosen));
    ok, at', left' := Copy(buf, at, left, word);
    if !ok { return; }
    ghost var before := buf[..at'];
    var written := PrintNames(names, chosen, buf, at', left');
    if written < 0 { return false, at', left'; }
    assert buf[..at' + written] == buf[..at'] + buf[at'..at' + written];
    assert buf[..at'] == before;
    at', left' := at' + written, left' - written;
    assert before + (Text(names, chosen) + ";") == old(buf[..at]) + (word + Text(names, chosen) + ";");
  }

  method PutArg(buf: array<char>, at: nat, left: int, arg: string) returns (ok: bool, at': nat, left': int)
    requires at + left == BUDGET && left > 0 && buf.Length == BUDGET + 1
    modifies buf
    ensures ok <==> |Joined([arg])| < left
    ensures at' + left' == BUDGET && left' > 0
    ensures ok ==> buf[..at'] == old(buf[..at]) + Joined([arg])
  {
    hide Joined;
    JoinedOne(arg);
    ok, at', left' := Format(buf, at, left, arg + ";");
  }

  /** The network name, the protocol and the key-management suites. */
  method PutSuites(buf: array<char>, c: Settings, p: Platform) returns (ok: bool, at: nat, left: int)
    requires buf.Length == BUDGET + 1 && c.Valid()
    modifies buf
    ensures ok <==> Suites(c, p) != {} && |Joined(SsidArgs(c) + ProtoArgs(c) + SuiteArgs(c, p))| < BUDGET
    ensures at + left == BUDGET
    ensures ok ==> left > 0 && buf[..at] == Joined(SsidArgs(c) + ProtoArgs(c) + SuiteArgs(c, p))
  {
    hide Joined, Text, Suites;
    JoinedAppend(SsidArgs(c) + ProtoArgs(c), SuiteArgs(c, p));
    JoinedAppend(SsidArgs(c), ProtoArgs(c));
    JoinedOne("ssid \"" + c.ssid + "\"");
    at, left := 0, BUDGET;
    ok, at, left := Copy(buf, at, left, "ssid \"" + c.ssid + "\";");
    assert buf[..at] == Joined(SsidArgs(c));
    if c.akm != {} && PRE_RSN !in c.akm {
      ok, at, left := PutArg(buf, at, left, "proto RSN");
      if !ok { return; }
    } else {
      JoinedNone();
    }
    assert buf[..at] == Joined(SsidArgs(c) + ProtoArgs(c));
    if Suites(c, p) == {} { return false, at, left; }
    ok, at, left := PutNames(buf, at, left, "key_mgmt", AKM_NAMES, Suites(c, p));
  }

  lemma JoinedNone()
    ensures Joined([]) == ""
  {
  }

  /** One set of ciphers, unless it is what the supplicant takes by default. */
  method PutCiphers(buf: array<char>, at: nat, left: int, word: string, chosen: set<nat>) returns (ok: bool, at': nat, left': int)
    requires at + left == BUDGET && left > 0 && buf.Length == BUDGET + 1
    modifies buf
    ensures ok <==> |Joined(CipherArgs(word, chosen))| < left
    ensures at' + left' == BUDGET
    ensures ok ==> left' > 0 && buf[..at'] == old(buf[..at]) + Joined(CipherArgs(word, chosen))
  {
    hide Joined, Text;
    if chosen != {TKIP, CCMP} {
      ok, at', left' := PutNames(buf, at, left, word, CIPHER_NAMES, chosen);
    } else {
      JoinedNone();
      ok, at', left' := true, at, left;
    }
  }

  method PutAllCiphers(buf: array<char>, at: nat, left: int, c: Settings, p: Platform) returns (ok: bool, at': nat, left': int)
    requires at + left == BUDGET && left > 0 && buf.Length == BUDGET + 1
    modifies buf
    ensures ok <==> (UsesCiphers(c, p) ==> Allowed(c.pairwise, p) != {} && Allowed(c.group, p) != {})
                    && |Joined(AllCipherArgs(c, p))| < left
    ensures at' + left' == BUDGET
    ensures ok ==> left' > 0 && buf[..at'] == old(buf[..at]) + Joined(AllCipherArgs(c, p))
  {
    hide Joined, Text, Suites, CipherArgs, Allowed, UsesCiphers;
    if !UsesCiphers(c, p) {
      JoinedNone();
      return true, at, left;
    }
    var pairwise, group := Allowed(c.pairwise, p), Allowed(c.group, p);
    if pairwise == {} || group == {} { return false, at, left; }
    JoinedAppend(CipherArgs("pairwise", pairwise), CipherArgs("group", group));
    ok, at', left' := PutCiphers(buf, at, left, "pairwise", pairwise);
    if !ok { return; }
    ok, at', left' := PutCiphers(buf, at', left', "group", group);
  }

  /** The key and the use of protected management frames. */
  method PutKey(buf: array<char>, at: nat, left: int, c: Settings, p: Platform) returns (ok: bool, at': nat, left': int)
    requires at + left == BUDGET && left > 0 && buf.Length == BUDGET + 1
    modifies buf
    ensures ok <==> |Joined(KeyArgs(c, p) + MfpArgs(c, p))| < left
    ensures at' + left' == BUDGET
    ensures ok ==> left' > 0 && buf[..at'] == old(buf[..at]) + Joined(KeyArgs(c, p) + MfpArgs(c, p))
  {
    hide Joined, Suites;
    JoinedNone();
    JoinedAppend(KeyArgs(c, p), MfpArgs(c, p));
    if c.passphrase == "" && OWE !in Suites(c, p) { return true, at, left; }
    ok, at', left' := PutSecret(buf, at, left, c, p);
    if !ok || !p.mfp { return; }
    ok, at', left' := PutArg(buf, at', left', if c.mfpr then "ieee80211w 2" else "ieee80211w 1");
  }

  method PutSecret(buf: array<char>, at: nat, left: int, c: Settings, p: Platform) returns (ok: bool, at': nat, left': int)
    requires at + left == BUDGET && left > 0 && buf.Length == BUDGET + 1 && UsesKey(c, p)
    modifies buf
    ensures ok <==> |Joined(KeyArgs(c, p))| < left
    ensures at' + left' == BUDGET && left' > 0
    ensures ok ==> buf[..at'] == old(buf[..at]) + Joined(KeyArgs(c, p))
  {
    hide Joined, Suites;
    var n := |c.passphrase|;
    if NONE in Suites(c, p) && (n == 5 || n == 13 || n == 16) {
      JoinedTwo("wep_key0 \"" + c.passphrase + "\"", "auth_alg OPEN SHARED");
      var piece := "wep_key0 \"" + c.passphrase + "\";auth_alg OPEN SHARED;";
      assert piece == Joined(KeyArgs(c, p));
      ok, at', left' := Format(buf, at, left, piece);
    } else if Suites(c, p) * {PSK, SAE} != {} {
      ok, at', left' := PutArg(buf, at, left, "psk \"" + c.passphrase + "\"");
    } else {
      JoinedNone();
      ok, at', left' := true, at, left;
    }
  }

  method PutRest(buf: array<char>, at: nat, left: int, c: Settings) returns (ok: bool, at': nat, left': int)
    requires at + left == BUDGET && left > 0 && buf.Length == BUDGET + 1 && c.Valid()
    modifies buf
    ensures ok <==> |Joined(BssidArgs(c) + ["scan_ssid 1"])| < left
    ensures at' + left' == BUDGET
    ensures ok ==> left' > 0 && buf[..at'] == old(buf[..at]) + Joined(BssidArgs(c) + ["scan_ssid 1"])
  {
    hide Joined, MacText;
    JoinedNone();
    JoinedAppend(BssidArgs(c), ["scan_ssid 1"]);
    at', left' := at, left;
    if c.bssid[0] != 0 || c.bssid[1] != 0 || c.bssid[2] != 0 {
      ok, at', left' := PutArg(buf, at, left, "bssid " + MacText(c.bssid));
      if !ok { return; }
    }
    ok, at', left' := PutArg(buf, at', left', "scan_ssid 1");
  }

  lemma ArgumentsInStages(c: Settings, p: Platform)
    requires c.Valid()
    ensures Joined(Arguments(c, p)) ==
            Joined(SsidArgs(c) + ProtoArgs(c) + SuiteArgs(c, p)) + Joined(AllCipherArgs(c, p))
            + Joined(KeyArgs(c, p) + MfpArgs(c, p)) + Joined(BssidArgs(c) + ["scan_ssid 1"])
  {
    hide Joined, SsidArgs, ProtoArgs, SuiteArgs, AllCipherArgs, KeyArgs, MfpArgs, BssidArgs;
    var front, ciphers := SsidArgs(c) + ProtoArgs(c) + SuiteArgs(c, p), AllCipherArgs(c, p);
    var key, rest := KeyArgs(c, p) + MfpArgs(c, p), BssidArgs(c) + ["scan_ssid 1"];
    assert Arguments(c, p) == front + ciphers + key + rest;
    JoinedAppend(front + ciphers + key, rest);
    JoinedAppend(front + ciphers, key);
    JoinedAppend(front, ciphers);
  }

  /** Writes the whole configuration: it succeeds exactly when the settings are supported and the text
      with its NUL fits the budget, and then the buffer holds the meant arguments, each closed by ';'. */
  method Build(buf: array<char>, c: Settings, p: Platform) returns (ok: bool, at: nat)
    requires buf.Length == BUDGET + 1 && c.Valid()
    modifies buf
    ensures ok <==> Supported(c, p) && |Joined(Arguments(c, p))| < 384
    ensures ok ==> at == |Joined(Arguments(c, p))| && buf[..at] == Joined(Arguments(c, p)) && buf[at] == '\0'
  {
    hide Joined, Suites, SsidArgs, ProtoArgs, SuiteArgs, AllCipherArgs, KeyArgs, MfpArgs, BssidArgs, Arguments, UsesCiphers, Allowed;
    ArgumentsInStages(c, p);
    var left;
    ok, at, left := PutSuites(buf, c, p);
    if !ok { return; }
    ok, at, left := PutAllCiphers(buf, at, left, c, p);
    if !ok { return; }
    ok, at, left := PutKey(buf, at, left, c, p);
    if !ok { return; }
    ok, at, left := PutRest(buf, at, left, c);
    if !ok { return; }
    ghost var text := buf[..at];
    buf[at] := '\0';
    assert buf[..at] == text;
  }

  // ---------- Cutting at semicolons ----------

  const SEMICOLON: set<char> := {';'}

  /** strtok: the next token from `from` on is cut out in place; None at the end of the text. */
  method NextToken(buf: array<char>, s: string, from: nat) returns (tok: Option<string>, next: nat)
    requires from <= |s| < buf.Length && buf[|s|] == '\0' && '\0' !in s
    requires forall k :: from <= k < |s| ==> buf[k] == s[k]
    modifies buf
    ensures next <= |s| && buf[|s|] == '\0' && forall k :: next <= k < |s| ==> buf[k] == s[k]
    ensures Words(s[from..], SEMICOLON) == if tok == None then [] else [tok.value] + Words(s[next..], SEMICOLON)
    ensures tok == None || next > from
  {
    hide Words;
    var start := from;
    while buf[start] == ';'
      invariant from <= start <= |s| && Words(s[start..], SEMICOLON) == Words(s[from..], SEMICOLON)
      invariant buf[|s|] == '\0' && forall k :: from <= k < |s| ==> buf[k] == s[k]
      decreases |s| - start
    {
      WordsPastSep(s, start, SEMICOLON);
      start := start + 1;
    }
    WordsEmpty(s, |s|, SEMICOLON);
    if buf[start] == '\0' { return None, start; }
    var end := start;
    while buf[end] != ';' && buf[end] != '\0'
      invariant start <= end <= |s| && Solid(s[start..end], SEMICOLON)
      invariant buf[|s|] == '\0' && forall k :: from <= k < |s| ==> buf[k] == s[k]
      decreases |s| - end
    {
      assert s[start..end + 1] == s[start..end] + [s[end]] && s[end] !in SEMICOLON;
      end := end + 1;
    }
    assert forall k :: start <= k < end ==> s[k] == s[start..end][k - start];
    WordAt(s, start, end, SEMICOLON);
    tok := Some(buf[start..end]);
    assert buf[start..end] == s[start..end];
    if buf[end] == '\0' { return tok, end; }
    buf[end] := '\0';
    WordsPastSep(s, end, SEMICOLON);
    next := end + 1;
  }

  predicate AllAccepted(args: seq<string>, accepts: string -> bool) {
    forall k :: 0 <= k < |args| ==> accepts(args[k])
  }

  /** What was tried: all the words when each is accepted, else those up to and including the first refused. */
  predicate SentInOrder(words: seq<string>, sent: seq<string>, accepts: string -> bool) {
    if AllAccepted(words, accepts) then sent == words
    else sent != [] && sent <= words && AllAccepted(sent[..|sent| - 1], accepts) && !accepts(sent[|sent| - 1])
  }

  lemma AcceptedNone(accepts: string -> bool)
    ensures AllAccepted([], accepts)
  {
  }

  lemma AcceptedNext(sent: seq<string>, arg: string, accepts: string -> bool)
    requires AllAccepted(sent, accepts) && accepts(arg)
    ensures AllAccepted(sent + [arg], accepts)
  {
  }

  lemma RefusedNow(words: seq<string>, sent: seq<string>, arg: string, accepts: string -> bool)
    requires sent + [arg] <= words && AllAccepted(sent, accepts) && !accepts(arg)
    ensures SentInOrder(words, sent + [arg], accepts) && !AllAccepted(words, accepts)
  {
    var now := sent + [arg];
    assert now[..|now| - 1] == sent && words[|sent|] == now[|sent|];
  }

  lemma AllSent(words: seq<string>, sent: seq<string>, accepts: string -> bool)
    requires words == sent + [] && AllAccepted(sent, accepts)
    ensures SentInOrder(words, sent, accepts) && AllAccepted(words, accepts)
  {
    assert words == sent;
  }

  // The command that carries one argument.
  function Command(id: string, arg: string): string { "SET_NETWORK " + id + " " + arg }

  /** The supplicant as far as the exchange sees it: whether it adds a network and under which number, how
      it answers an argument, and whether it enables the network. */
  datatype Supplicant = Supplicant(added: bool, id: string, accepts: string -> bool, enables: bool)
  {
    /** An argument is taken if its command with a NUL fits the command buffer and is answered well. */
    function Takes(room: nat): string -> bool { arg => |Command(id, arg)| < room && accepts(arg) }
  }

  lemma CommandLength(id: string, arg: string)
    ensures |Command(id, arg)| == 13 + |id| + |arg|
  {
    assert |"SET_NETWORK "| == 12;
    assert Command(id, arg) == "SET_NETWORK " + (id + (" " + arg));
  }

  lemma TakesIs(w: Supplicant, room: nat, arg: string)
    ensures w.Takes(room)(arg) <==> 13 + |w.id| + |arg| < room && w.accepts(arg)
    ensures |Command(w.id, arg)| == 13 + |w.id| + |arg|
  {
    CommandLength(w.id, arg);
  }

  lemma Regroup(sent: seq<string>, tok: string, rest: seq<string>)
    ensures sent + ([tok] + rest) == (sent + [tok]) + rest && sent + [tok] <= sent + ([tok] + rest)
  {
  }

  /** The exchange with the supplicant. A refusal after the network was added takes the interface away. */
  method CreateNetwork(buf: array<char>, s: string, w: Supplicant, room: nat)
    returns (result: int, sent: seq<string>, removed: bool)
    requires Holds(buf[..], s)
    modifies buf
    ensures result == if w.added && w.enables && AllAccepted(Words(s, SEMICOLON), w.Takes(room)) then 0 else -1
    ensures if w.added then SentInOrder(Words(s, SEMICOLON), sent, w.Takes(room)) else sent == []
    ensures removed <==> w.added && result != 0
  {
    hide Words, AllAccepted, SentInOrder, Supplicant.Takes, Command;
    ghost var takes := w.Takes(room);
    AcceptedNone(takes);
    sent := [];
    if !w.added { return -1, sent, false; }
    ghost var all, rest := Words(s, SEMICOLON), Words(s, SEMICOLON);
    assert s[0..] == s;
    assert forall k :: 0 <= k < |s| ==> buf[k] == buf[..][..|s|][k];
    var tok: Option<string>, next: nat := NextToken(buf, s, 0);
    while tok != None
      invariant next <= |s| < buf.Length && buf[|s|] == '\0' && forall k :: next <= k < |s| ==> buf[k] == s[k]
      invariant all == sent + rest && rest == if tok == None then [] else [tok.value] + Words(s[next..], SEMICOLON)
      invariant AllAccepted(sent, takes)
      decreases tok != None, |s| - next
    {
      ghost var before := sent;
      rest := Words(s[next..], SEMICOLON);
      Regroup(sent, tok.value, rest);
      TakesIs(w, room, tok.value);
      sent := sent + [tok.value];
      if !(|Command(w.id, tok.value)| < room && w.accepts(tok.value)) {
        RefusedNow(all, before, tok.value, takes);
        return -1, sent, true;
      }
      AcceptedNext(before, tok.value, takes);
      tok, next := NextToken(buf, s, next);
    }
    AllSent(all, sent, takes);
    result := if w.enables then 0 else -1;
    removed := !w.enables;
  }

  // ---------- Round trip ----------

  lemma WordsOfFirst(w: string, rest: string)
    requires w != "" && Solid(w, SEMICOLON)
    ensures Words(w + ";" + rest, SEMICOLON) == [w] + Words(rest, SEMICOLON)
  {
    hide Words;
    var s, e := w + ";" + rest, |w|;
    assert forall k :: 0 <= k < e ==> s[k] == w[k];
    WordAt(s, 0, e, SEMICOLON);
    assert s[0..] == s && s[0..e] == w && s[e] == ';';
    WordsPastSep(s, e, SEMICOLON);
    assert s[e + 1..] == rest;
  }

  lemma {:induction false} WordsOfJoined(args: seq<string>)
    requires forall k :: 0 <= k < |args| ==> args[k] != "" && Solid(args[k], SEMICOLON)
    ensures Words(Joined(args), SEMICOLON) == args
  {
    if args != [] {
      WordsOfJoined(args[1..]);
      WordsOfFirst(args[0], Joined(args[1..]));
    }
  }

  /** What a C string function sees of a text: all up to the first NUL. */
  function Seen(s: string): (r: string)
    ensures r <= s && '\0' !in r && (|r| < |s| ==> s[|r|] == '\0')
  {
    if s == "" || s[0] == '\0' then "" else [s[0]] + Seen(s[1..])
  }

  lemma {:induction false} SeenWhole(s: string)
    requires '\0' !in s
    ensures Seen(s) == s
  {
    if s != "" { SeenWhole(s[1..]); }
  }

  /** Free of the two characters that end an argument. */
  predicate Sendable(arg: string) { ';' !in arg && '\0' !in arg }

  predicate AllSendable(args: seq<string>) { forall k :: 0 <= k < |args| ==> Sendable(args[k]) }

  predicate NoneEmpty(args: seq<string>) { forall k :: 0 <= k < |args| ==> args[k] != "" }

  lemma {:induction false} JoinedHasNoNul(args: seq<string>)
    requires forall k :: 0 <= k < |args| ==> '\0' !in args[k]
    ensures '\0' !in Joined(args)
  {
    if args != [] { JoinedHasNoNul(args[1..]); }
  }

  /** Joined arguments come back from the tokeniser as they were, if and only if none of them holds a
      semicolon or a NUL. */
  lemma SplitExactlyIff(args: seq<string>)
    requires NoneEmpty(args)
    ensures Words(Seen(Joined(args)), SEMICOLON) == args <==> AllSendable(args)
  {
    hide Words, Joined;
    if AllSendable(args) {
      JoinedHasNoNul(args);
      SeenWhole(Joined(args));
      WordsOfJoined(args);
    }
    if Words(Seen(Joined(args)), SEMICOLON) == args {
      forall k | 0 <= k < |args| ensures Sendable(args[k]) {
        WordsAreSolid(Seen(Joined(args)), SEMICOLON, args[k]);
      }
    }
  }

  // ---------- What may spoil the arguments ----------

  lemma {:induction false} TextSendable(names: seq<string>, chosen: set<nat>, i: nat)
    requires i <= |names| && forall k :: 0 <= k < |names| ==> Sendable(names[k])
    ensures Sendable(Text(names, chosen, i))
    decreases |names| - i
  {
    if i < |names| { TextSendable(names, chosen, i + 1); }
  }

  lemma NamesSendable()
    ensures forall k :: 0 <= k < |AKM_NAMES| ==> Sendable(AKM_NAMES[k])
    ensures forall k :: 0 <= k < |CIPHER_NAMES| ==> Sendable(CIPHER_NAMES[k])
  {
    hide Sendable;
    CiphersSendable();
    forall k | 0 <= k < |AKM_NAMES| ensures Sendable(AKM_NAMES[k]) {
      if k < 11 { FirstSuitesSendable(k); } else { LastSuitesSendable(k); }
    }
  }

  lemma FirstSuitesSendable(k: nat)
    requires k < 11
    ensures Sendable(AKM_NAMES[k])
  {
  }

  lemma LastSuitesSendable(k: nat)
    requires 11 <= k < 21
    ensures Sendable(AKM_NAMES[k])
  {
  }

  lemma CiphersSendable()
    ensures forall k :: 0 <= k < |CIPHER_NAMES| ==> Sendable(CIPHER_NAMES[k])
  {
  }

  lemma MacSendable(m: seq<nat>)
    requires |m| == 6 && forall k :: 0 <= k < 6 ==> m[k] < 256
    ensures Sendable(MacText(m))
  {
    forall k | 0 <= k < 6 ensures Sendable(Hex(m[k])) {
      HexSendable(m[k]);
    }
    hide Hex;
  }

  lemma HexSendable(n: nat)
    requires n < 256
    ensures Sendable(Hex(n))
  {
    assert Sendable("0123456789abcdef");
    assert forall c :: c in Hex(n) ==> c in "0123456789abcdef";
  }

  lemma SendableAppend(a: string, b: string)
    ensures Sendable(a + b) <==> Sendable(a) && Sendable(b)
  {
  }

  lemma SendableQuoted(before: string, text: string, after: string)
    requires Sendable(before) && Sendable(after)
    ensures Sendable(before + text + after) <==> Sendable(text)
  {
    SendableAppend(before + text, after);
    SendableAppend(before, text);
  }

  lemma ArgsAppend(a: seq<string>, b: seq<string>)
    ensures AllSendable(a + b) <==> AllSendable(a) && AllSendable(b)
    ensures NoneEmpty(a + b) <==> NoneEmpty(a) && NoneEmpty(b)
  {
    assert forall k :: 0 <= k < |a| ==> (a + b)[k] == a[k];
    assert forall k :: 0 <= k < |b| ==> (a + b)[|a| + k] == b[k];
  }

  lemma OneArg(arg: string)
    ensures AllSendable([arg]) <==> Sendable(arg)
    ensures NoneEmpty([arg]) <==> arg != ""
  {
    assert [arg][0] == arg;
  }

  lemma NamesArgSendable(word: string, names: seq<string>, chosen: set<nat>)
    requires word != "" && Sendable(word) && forall k :: 0 <= k < |names| ==> Sendable(names[k])
    ensures AllSendable([word + Text(names, chosen)]) && NoneEmpty([word + Text(names, chosen)])
  {
    TextSendable(names, chosen, 0);
    SendableAppend(word, Text(names, chosen));
  }

  lemma CipherArgsSendable(c: Settings, p: Platform)
    ensures AllSendable(AllCipherArgs(c, p)) && NoneEmpty(AllCipherArgs(c, p))
  {
    hide UsesCiphers, Allowed, Text;
    NamesSendable();
    var pairwise, group := Allowed(c.pairwise, p), Allowed(c.group, p);
    NamesArgSendable("pairwise", CIPHER_NAMES, pairwise);
    NamesArgSendable("group", CIPHER_NAMES, group);
    ArgsAppend(CipherArgs("pairwise", pairwise), CipherArgs("group", group));
  }

  lemma KeyArgsSendable(c: Settings, p: Platform)
    requires c.Valid()
    ensures AllSendable(KeyArgs(c, p)) <==> (UsesWep(c, p) || UsesPsk(c, p) ==> ';' !in c.passphrase)
    ensures NoneEmpty(KeyArgs(c, p))
  {
    hide UsesWep, UsesPsk, AllSendable, NoneEmpty, Sendable;
    if UsesWep(c, p) {
      WepArgsSendable(c.passphrase);
    } else if UsesPsk(c, p) {
      PskArgsSendable(c.passphrase);
    } else {
      NoArgs();
    }
  }

  lemma NoArgs()
    ensures AllSendable([]) && NoneEmpty([])
  {
  }

  lemma WepArgsSendable(key: string)
    requires '\0' !in key
    ensures var args := ["wep_key0 \"" + key + "\"", "auth_alg OPEN SHARED"];
            NoneEmpty(args) && (AllSendable(args) <==> ';' !in key)
  {
    SendableQuoted("wep_key0 \"", key, "\"");
    var wep, auth := "wep_key0 \"" + key + "\"", "auth_alg OPEN SHARED";
    OneArg(wep);
    OneArg(auth);
    ArgsAppend([wep], [auth]);
    assert [wep] + [auth] == [wep, auth];
  }

  lemma PskArgsSendable(key: string)
    requires '\0' !in key
    ensures var args := ["psk \"" + key + "\""]; NoneEmpty(args) && (AllSendable(args) <==> ';' !in key)
  {
    SendableQuoted("psk \"", key, "\"");
    OneArg("psk \"" + key + "\"");
  }

  lemma RestSendable(c: Settings)
    requires c.Valid()
    ensures AllSendable(BssidArgs(c)) && NoneEmpty(BssidArgs(c))
  {
    hide MacText;
    MacSendable(c.bssid);
    SendableAppend("bssid ", MacText(c.bssid));
  }

  /** The tokeniser hands over exactly the meant arguments, in order, if and only if neither the network
      name nor a passphrase that is used holds a character that ends an argument. */
  lemma ArgumentsSurviveIff(c: Settings, p: Platform)
    requires c.Valid()
    ensures Words(Seen(Joined(Arguments(c, p))), SEMICOLON) == Arguments(c, p) <==>
            Sendable(c.ssid) && (UsesWep(c, p) || UsesPsk(c, p) ==> ';' !in c.passphrase)
  {
    hide AllSendable, NoneEmpty, Suites, UsesCiphers, AllCipherArgs, UsesWep, UsesPsk, Text, KeyArgs, BssidArgs, Joined, Words, Seen;
    NamesSendable();
    KeyArgsSendable(c, p);
    CipherArgsSendable(c, p);
    RestSendable(c);
    SsidArgsSendable(c);
    PlainArgsSendable(c, p);
    NamesArgSendable("key_mgmt", AKM_NAMES, Suites(c, p));
    var a1 := SsidArgs(c) + ProtoArgs(c);
    var a2 := a1 + SuiteArgs(c, p);
    var a3 := a2 + AllCipherArgs(c, p);
    var a4 := a3 + KeyArgs(c, p);
    var a5 := a4 + MfpArgs(c, p);
    var a6 := a5 + BssidArgs(c);
    ArgsAppend(SsidArgs(c), ProtoArgs(c));
    ArgsAppend(a1, SuiteArgs(c, p));
    ArgsAppend(a2, AllCipherArgs(c, p));
    ArgsAppend(a3, KeyArgs(c, p));
    ArgsAppend(a4, MfpArgs(c, p));
    ArgsAppend(a5, BssidArgs(c));
    ArgsAppend(a6, ["scan_ssid 1"]);
    SplitExactlyIff(Arguments(c, p));
  }

  lemma SsidArgsSendable(c: Settings)
    ensures AllSendable(SsidArgs(c)) <==> Sendable(c.ssid)
    ensures NoneEmpty(SsidArgs(c))
  {
    SendableQuoted("ssid \"", c.ssid, "\"");
    OneArg("ssid \"" + c.ssid + "\"");
  }

  lemma PlainArgsSendable(c: Settings, p: Platform)
    ensures AllSendable(ProtoArgs(c)) && NoneEmpty(ProtoArgs(c)) && AllSendable(MfpArgs(c, p)) && NoneEmpty(MfpArgs(c, p))
    ensures AllSendable(["scan_ssid 1"]) && NoneEmpty(["scan_ssid 1"])
  {
    hide UsesKey;
  }

  /** The whole configuration: settings that are not supported or do not fit send nothing; otherwise the
      tokens of the built text are sent in order, up to the first one that is not taken, and these are the
      meant arguments if the name and a used passphrase are clean. The suites are written back, and success
      is reported only when every token was taken. */
  method Configure(c: Settings, p: Platform, w: Supplicant, room: nat)
    returns (result: int, sent: seq<string>, removed: bool, akm: set<nat>)
    requires c.Valid()
    ensures akm == Suites(c, p)
    ensures !(Supported(c, p) && |Joined(Arguments(c, p))| < 384) ==> result == -1 && sent == [] && !removed
    ensures Supported(c, p) && |Joined(Arguments(c, p))| < 384 ==>
              var tokens := Words(Seen(Joined(Arguments(c, p))), SEMICOLON);
              && result == (if w.added && w.enables && AllAccepted(tokens, w.Takes(room)) then 0 else -1)
              && (if w.added then SentInOrder(tokens, sent, w.Takes(room)) else sent == [])
              && (removed <==> w.added && result != 0)
    ensures Sendable(c.ssid) && (UsesWep(c, p) || UsesPsk(c, p) ==> ';' !in c.passphrase) ==>
              Words(Seen(Joined(Arguments(c, p))), SEMICOLON) == Arguments(c, p)
  {
    hide Joined, Arguments, Supported, Words, AllAccepted, SentInOrder, Sendable, Suites, UsesWep, UsesPsk;
    akm := Suites(c, p);
    ArgumentsSurviveIff(c, p);
    var buf := new char[BUDGET + 1];
    var ok, at := Build(buf, c, p);
    if !ok { return -1, [], false, akm; }
    result, sent, removed := CreateNetwork(buf, Seen(buf[..at]), w, room);
  }

  /** Once configured, a network is found unchanged by the later check if and only if its suites leave out
      WPA-PSK-SHA256, which the parser does not know, and OWE where the parser was built without it. */
  lemma ConfiguredUnchangedIff(c: Settings, p: Platform, owe: bool, r: nat, q: nat)
    requires Suites(c, p) != {}
    requires LeadingZeros(CodeOf(Parse(Text(AKM_NAMES, Suites(c, p)), owe, p.ft)), r) && LeadingZeros(WordOf(Suites(c, p)), q)
    ensures r == q <==> SHA256_PSK !in Suites(c, p) && (OWE in Suites(c, p) ==> owe)
  {
    hide Text, Parse, CodeOf, WordOf, LeadingZeros;
    var akm := Suites(c, p);
    NetworkUnchangedIff(akm, owe, p.ft, r, q);
    if akm - {NONE} == {} { assert akm == {NONE}; }
  }
}
