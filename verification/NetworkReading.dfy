/** What the configuration of src/wifi_manager/wifi_wpa.c means to the supplicant that receives it: a
    reader of SET_NETWORK arguments, written without the builder, and what it reads from the arguments. */
module NetworkReading {
  import opened Wrappers
  import opened Splitting
  import opened KeyMgmt
  import opened NetworkConfig

  // ---------- Reader ----------

  datatype Secret = NoKey | Wep(key: string) | Passphrase(key: string)

  datatype Protection = Off | Optional | Required

  datatype Network = Network(name: string, rsnOnly: bool, suites: set<nat>, pairwise: set<nat>, group: set<nat>,
                             secret: Secret, shared: bool, protection: Protection, bssid: Option<seq<nat>>, hidden: bool)

  /** A network that was only added: the supplicant takes TKIP and CCMP unless told otherwise. */
  function NewNetwork(): Network { Network("", false, {}, {1, 2}, {1, 2}, NoKey, false, Off, None, false) }

  /** An argument is a word and what follows it, from the first blank on. */
  function Key(arg: string): string { arg[..WordLength(arg, {' '})] }

  function Rest(arg: string): string { arg[WordLength(arg, {' '})..] }

  function Unquoted(v: string): Option<string> {
    if |v| >= 3 && v[0] == ' ' && v[1] == '"' && v[|v| - 1] == '"' then Some(v[2..|v| - 1]) else None
  }

  function SuiteNumber(w: string): Option<nat> {
    if w == "NONE" then Some(0)
    else if w == "WPA-EAP" then Some(2)
    else if w == "WPA-PSK" then Some(3)
    else if w == "FT_EAP" then Some(4)
    else if w == "FT-PSK" then Some(5)
    else if w == "WPA-EAP-SHA256" then Some(6)
    else if w == "WPA-PSK-SHA256" then Some(7)
    else if w == "TDLS" then Some(8)
    else if w == "SAE" then Some(9)
    else if w == "FT-SAE" then Some(10)
    else if w == "WPA-EAP-SUITE-B" then Some(11)
    else if w == "WPA-EAP-SUITE-B-192" then Some(12)
    else if w == "FILS-SHA256" then Some(13)
    else if w == "FILS-SHA384" then Some(14)
    else if w == "FT-FILS-SHA256" then Some(15)
    else if w == "FT-FILS-SHA384" then Some(16)
    else if w == "OWE" then Some(17)
    else if w == "WAPI-CERT" then Some(18)
    else if w == "WAPI-PSK" then Some(19)
    else if w == "DPP" then Some(20)
    else None
  }

  function CipherNumber(w: string): Option<nat> {
    if w == "WEP40" then Some(0)
    else if w == "TKIP" then Some(1)
    else if w == "CCMP" then Some(2)
    else if w == "WEP104" then Some(3)
    else if w == "WPI_SMS4" then Some(4)
    else if w == "AES-128-CMAC" then Some(5)
    else if w == "GCMP" then Some(6)
    else if w == "GCMP-256" then Some(7)
    else if w == "CCMP-256" then Some(8)
    else if w == "BIP-GMAC-128" then Some(9)
    else if w == "BIP-GMAC-256" then Some(10)
    else if w == "BIP-CMAC-256" then Some(11)
    else None
  }

  /** The numbers of a list of names; None if one of them is unknown. */
  function Numbers(ws: seq<string>, number: string -> Option<nat>): Option<set<nat>> {
    if ws == [] then Some({})
    else
      var rest := Numbers(ws[1..], number);
      if number(ws[0]) == None || rest == None then None else Some({number(ws[0]).value} + rest.value)
  }

  function Digit(c: char): nat {
    if '0' <= c <= '9' then c as int - '0' as int else if 'a' <= c <= 'f' then c as int - 'a' as int + 10 else 256
  }

  function Pair(v: string, k: nat): nat
    requires k + 1 < |v|
  {
    16 * Digit(v[k]) + Digit(v[k + 1])
  }

  /** Six bytes in hexadecimal, between colons. */
  function Address(v: string): Option<seq<nat>> {
    if |v| == 18 && v[0] == ' ' && v[3] == ':' && v[6] == ':' && v[9] == ':' && v[12] == ':' && v[15] == ':' then
      var b := [Pair(v, 1), Pair(v, 4), Pair(v, 7), Pair(v, 10), Pair(v, 13), Pair(v, 16)];
      if forall k :: 0 <= k < 6 ==> b[k] < 256 then Some(b) else None
    else None
  }

  /** One SET_NETWORK argument; None if it is not understood. */
  function ReadArg(n: Network, arg: string): Option<Network> {
    var w, v := Key(arg), Rest(arg);
    if w == "ssid" then (match Unquoted(v) case None => None case Some(t) => Some(n.(name := t)))
    else if w == "proto" then if v == " RSN" then Some(n.(rsnOnly := true)) else None
    else if w == "key_mgmt" then
      (match Numbers(Words(v, {' ', '\t'}), SuiteNumber) case None => None case Some(s) => Some(n.(suites := s)))
    else if w == "pairwise" then
      (match Numbers(Words(v, {' ', '\t'}), CipherNumber) case None => None case Some(s) => Some(n.(pairwise := s)))
    else if w == "group" then
      (match Numbers(Words(v, {' ', '\t'}), CipherNumber) case None => None case Some(s) => Some(n.(group := s)))
    else if w == "wep_key0" then (match Unquoted(v) case None => None case Some(t) => Some(n.(secret := Wep(t))))
    else if w == "auth_alg" then if v == " OPEN SHARED" then Some(n.(shared := true)) else None
    else if w == "psk" then (match Unquoted(v) case None => None case Some(t) => Some(n.(secret := Passphrase(t))))
    else if w == "ieee80211w" then
      if v == " 1" then Some(n.(protection := Optional)) else if v == " 2" then Some(n.(protection := Required)) else None
    else if w == "bssid" then (match Address(v) case None => None case Some(b) => Some(n.(bssid := Some(b))))
    else if w == "scan_ssid" then if v == " 1" then Some(n.(hidden := true)) else None
    else None
  }

  function ReadAll(n: Network, args: seq<string>): Option<Network>
    decreases |args|
  {
    if args == [] then Some(n)
    else match ReadArg(n, args[0]) case None => None case Some(q) => ReadAll(q, args[1..])
  }

  lemma {:induction false} ReadAppend(n: Network, a: seq<string>, b: seq<string>)
    ensures ReadAll(n, a + b) == match ReadAll(n, a) case None => None case Some(q) => ReadAll(q, b)
    decreases |a|
  {
    hide ReadArg;
    if a == [] {
      assert a + b == b;
    } else {
      assert (a + b)[1..] == a[1..] + b;
      if ReadArg(n, a[0]) != None { ReadAppend(ReadArg(n, a[0]).value, a[1..], b); }
    }
  }

  lemma ReadOne(n: Network, arg: string)
    ensures ReadAll(n, [arg]) == ReadArg(n, arg) && ReadAll(n, []) == Some(n)
  {
    assert [arg][1..] == [];
  }

  // ---------- Words and names ----------

  lemma KeyAndRest(w: string, v: string)
    requires ' ' !in w && (v == "" || v[0] == ' ')
    ensures Key(w + v) == w && Rest(w + v) == v
  {
    var t := w + v;
    assert forall k :: 0 <= k < |w| ==> t[k] == w[k];
    assert v != "" ==> t[|w|] == ' ';
    assert WordLength(t, {' '}) == |w|;
  }

  lemma Quoted(t: string)
    ensures Unquoted(" \"" + t + "\"") == Some(t)
  {
    assert (" \"" + t + "\"")[2..|t| + 2] == t;
  }

  predicate Numbered(names: seq<string>, chosen: set<nat>, number: string -> Option<nat>) {
    forall k :: 0 <= k < |names| && k in chosen ==> names[k] != "" && number(names[k]) == Some(k)
  }

  // The members from `i` to below `n`.
  function From(chosen: set<nat>, i: nat, n: nat): set<nat> { set k | k in chosen && i <= k < n }

  lemma FromStep(chosen: set<nat>, i: nat, n: nat)
    requires i < n
    ensures From(chosen, i, n) == (if i in chosen then {i} else {}) + From(chosen, i + 1, n)
  {
  }

  lemma FromNone(chosen: set<nat>, n: nat)
    ensures From(chosen, n, n) == {}
  {
  }

  lemma {:induction false} ChosenRead(names: seq<string>, chosen: set<nat>, number: string -> Option<nat>, i: nat)
    requires i <= |names| && Numbered(names, chosen, number)
    ensures Numbers(Chosen(names, chosen, i), number) == Some(From(chosen, i, |names|))
    decreases |names| - i
  {
    hide From;
    if i == |names| {
      FromNone(chosen, i);
    } else {
      ChosenRead(names, chosen, number, i + 1);
      FromStep(chosen, i, |names|);
      if Printed(names, chosen, i) {
        var rest := Chosen(names, chosen, i + 1);
        assert ([names[i]] + rest)[1..] == rest;
      } else {
        assert {} + From(chosen, i + 1, |names|) == From(chosen, i + 1, |names|);
      }
    }
  }

  lemma NamesRead(names: seq<string>, chosen: set<nat>, number: string -> Option<nat>)
    requires Numbered(names, chosen, number) && forall k :: 0 <= k < |names| ==> Solid(names[k], BLANKS)
    ensures Numbers(Words(Text(names, chosen), {' ', '\t'}), number) == Some(From(chosen, 0, |names|))
    ensures Text(names, chosen) != "" ==> Text(names, chosen)[0] == ' '
  {
    hide Words, Text, Numbers, Numbered, From;
    assert BLANKS == {' ', '\t'};
    WordsOfText(names, chosen, 0);
    ChosenRead(names, chosen, number, 0);
  }

  lemma SuiteNumbered(k: nat)
    requires k < 21 && k != 1
    ensures AKM_NAMES[k] != "" && SuiteNumber(AKM_NAMES[k]) == Some(k)
  {
    // Names of equal length, told apart by one character.
    assert "WPA-PSK"[4] == 'P' && "WPA-EAP"[4] == 'E' && "SAE"[0] == 'S' && "OWE"[0] == 'O' && "DPP"[0] == 'D';
    assert "NONE"[0] == 'N' && "TDLS"[0] == 'T' && "FT_EAP"[2] == '_' && "FT-PSK"[3] == 'P' && "FT-PSK"[2] == '-' && "FT-SAE"[3] == 'S';
    assert "FT-SAE"[2] == '-' && "FILS-SHA256"[8] == '2' && "FILS-SHA384"[8] == '3';
    assert "WPA-EAP-SHA256"[4] == 'E' && "WPA-PSK-SHA256"[4] == 'P' && "FT-FILS-SHA256"[0] == 'F' && "FT-FILS-SHA384"[0] == 'F';
    assert "WPA-EAP-SHA256"[0] == 'W' && "WPA-PSK-SHA256"[0] == 'W' && "FT-FILS-SHA256"[11] == '2' && "FT-FILS-SHA384"[11] == '3';
  }

  lemma SuitesNumbered(chosen: set<nat>)
    requires 1 !in chosen
    ensures Numbered(AKM_NAMES, chosen, SuiteNumber) && forall k :: 0 <= k < |AKM_NAMES| ==> Solid(AKM_NAMES[k], BLANKS)
  {
    hide Solid, SuiteNumber;
    forall k | 0 <= k < |AKM_NAMES|
      ensures Solid(AKM_NAMES[k], BLANKS) && (k != 1 ==> AKM_NAMES[k] != "" && SuiteNumber(AKM_NAMES[k]) == Some(k))
    {
      if k < 11 { FirstNameSolid(k); } else { LastNameSolid(k); }
      if k != 1 { SuiteNumbered(k); }
    }
  }

  lemma CipherNumbered(k: nat)
    requires k < 12
    ensures CIPHER_NAMES[k] != "" && CipherNumber(CIPHER_NAMES[k]) == Some(k) && Solid(CIPHER_NAMES[k], BLANKS)
  {
    assert "TKIP"[0] == 'T' && "CCMP"[1] == 'C' && "GCMP"[0] == 'G' && "GCMP-256"[0] == 'G' && "CCMP-256"[0] == 'C' && "WPI_SMS4"[0] == 'W';
    assert "AES-128-CMAC"[0] == 'A' && "BIP-GMAC-128"[9] == '1' && "BIP-GMAC-256"[4] == 'G';
    assert "BIP-GMAC-256"[9] == '2' && "BIP-CMAC-256"[4] == 'C';
  }

  lemma CiphersNumbered(chosen: set<nat>)
    ensures Numbered(CIPHER_NAMES, chosen, CipherNumber) && forall k :: 0 <= k < |CIPHER_NAMES| ==> Solid(CIPHER_NAMES[k], BLANKS)
  {
    hide Solid, CipherNumber;
    forall k | 0 <= k < |CIPHER_NAMES|
      ensures CIPHER_NAMES[k] != "" && CipherNumber(CIPHER_NAMES[k]) == Some(k) && Solid(CIPHER_NAMES[k], BLANKS)
    {
      CipherNumbered(k);
    }
  }

  // ---------- Each argument ----------

  lemma SsidRead(n: Network, c: Settings)
    ensures ReadAll(n, SsidArgs(c)) == Some(n.(name := c.ssid))
  {
    hide Unquoted, Key, Rest;
    assert "ssid \"" + c.ssid + "\"" == "ssid" + (" \"" + c.ssid + "\"");
    KeyAndRest("ssid", " \"" + c.ssid + "\"");
    Quoted(c.ssid);
    ReadOne(n, "ssid \"" + c.ssid + "\"");
  }

  lemma ProtoRead(n: Network, c: Settings)
    ensures ReadAll(n, ProtoArgs(c)) == Some(n.(rsnOnly := n.rsnOnly || (c.akm != {} && 1 !in c.akm)))
  {
    hide Key, Rest;
    assert "proto RSN" == "proto" + " RSN";
    KeyAndRest("proto", " RSN");
    ReadOne(n, "proto RSN");
  }

  lemma SuitesRead(n: Network, c: Settings, p: Platform)
    ensures ReadAll(n, SuiteArgs(c, p)) == Some(n.(suites := Suites(c, p)))
  {
    var s := Suites(c, p);
    assert s <= {0, 3, 5, 7, 9, 17};
    hide Key, Rest, Suites, Numbered, SuiteNumber, Text, Words;
    SuitesNumbered(s);
    NamesRead(AKM_NAMES, s, SuiteNumber);
    assert From(s, 0, 21) == s;
    KeyAndRest("key_mgmt", Text(AKM_NAMES, s));
    ReadOne(n, "key_mgmt" + Text(AKM_NAMES, s));
  }

  // A set of ciphers as it is read; what is not said is the default.
  function AsRead(chosen: set<nat>): set<nat> { if chosen == {1, 2} then {1, 2} else From(chosen, 0, 12) }

  lemma CiphersRead(n: Network, chosen: set<nat>)
    requires n.pairwise == {1, 2}
    ensures ReadAll(n, CipherArgs("pairwise", chosen)) == Some(n.(pairwise := AsRead(chosen)))
  {
    hide Key, Rest, Numbered, CipherNumber, Text, Words, From;
    CiphersNumbered(chosen);
    NamesRead(CIPHER_NAMES, chosen, CipherNumber);
    KeyAndRest("pairwise", Text(CIPHER_NAMES, chosen));
    ReadOne(n, "pairwise" + Text(CIPHER_NAMES, chosen));
  }

  lemma GroupRead(n: Network, chosen: set<nat>)
    requires n.group == {1, 2}
    ensures ReadAll(n, CipherArgs("group", chosen)) == Some(n.(group := AsRead(chosen)))
  {
    hide Key, Rest, Numbered, CipherNumber, Text, Words, From;
    CiphersNumbered(chosen);
    NamesRead(CIPHER_NAMES, chosen, CipherNumber);
    KeyAndRest("group", Text(CIPHER_NAMES, chosen));
    ReadOne(n, "group" + Text(CIPHER_NAMES, chosen));
  }

  lemma WepRead(n: Network, key: string)
    ensures ReadAll(n, ["wep_key0 \"" + key + "\"", "auth_alg OPEN SHARED"]) == Some(n.(secret := Wep(key), shared := true))
  {
    hide Unquoted, Key, Rest;
    var wep, auth := "wep_key0 \"" + key + "\"", "auth_alg OPEN SHARED";
    assert wep == "wep_key0" + (" \"" + key + "\"") && auth == "auth_alg" + " OPEN SHARED";
    KeyAndRest("wep_key0", " \"" + key + "\"");
    KeyAndRest("auth_alg", " OPEN SHARED");
    Quoted(key);
    ReadOne(n, wep);
    ReadOne(n.(secret := Wep(key)), auth);
    ReadAppend(n, [wep], [auth]);
    assert [wep] + [auth] == [wep, auth];
  }

  lemma PskRead(n: Network, key: string)
    ensures ReadAll(n, ["psk \"" + key + "\""]) == Some(n.(secret := Passphrase(key)))
  {
    hide Unquoted, Key, Rest;
    assert "psk \"" + key + "\"" == "psk" + (" \"" + key + "\"");
    KeyAndRest("psk", " \"" + key + "\"");
    Quoted(key);
    ReadOne(n, "psk \"" + key + "\"");
  }

  lemma ProtectionRead(n: Network, required: bool)
    ensures ReadAll(n, [if required then "ieee80211w 2" else "ieee80211w 1"])
            == Some(n.(protection := if required then Required else Optional))
  {
    hide Key, Rest;
    assert "ieee80211w 1" == "ieee80211w" + " 1" && "ieee80211w 2" == "ieee80211w" + " 2" && " 1"[1] != " 2"[1];
    KeyAndRest("ieee80211w", " 1");
    KeyAndRest("ieee80211w", " 2");
    ReadOne(n, "ieee80211w 1");
    ReadOne(n, "ieee80211w 2");
  }

  lemma HexRead(b: nat)
    requires b < 256
    ensures |Hex(b)| == 2 && Digit(Hex(b)[0]) == b / 16 && Digit(Hex(b)[1]) == b % 16
  {
    assert forall d :: 0 <= d < 16 ==> Digit("0123456789abcdef"[d]) == d;
  }

  lemma MacRead(m: seq<nat>)
    requires |m| == 6 && forall k :: 0 <= k < 6 ==> m[k] < 256
    ensures Address(" " + MacText(m)) == Some(m)
  {
    hide Hex, Digit;
    HexRead(m[0]);
    HexRead(m[1]);
    HexRead(m[2]);
    HexRead(m[3]);
    HexRead(m[4]);
    HexRead(m[5]);
    var v := " " + MacText(m);
    assert |v| == 18;
    assert Pair(v, 1) == m[0] && Pair(v, 4) == m[1] && Pair(v, 7) == m[2];
    assert Pair(v, 10) == m[3] && Pair(v, 13) == m[4] && Pair(v, 16) == m[5];
    assert [m[0], m[1], m[2], m[3], m[4], m[5]] == m;
  }

  lemma RestRead(n: Network, c: Settings)
    requires c.Valid() && n.bssid == None
    ensures ReadAll(n, BssidArgs(c)) == Some(n.(bssid := if c.bssid[..3] == [0, 0, 0] then None else Some(c.bssid)))
  {
    hide Key, Rest, MacText, Address;
    assert "bssid " + MacText(c.bssid) == "bssid" + (" " + MacText(c.bssid));
    KeyAndRest("bssid", " " + MacText(c.bssid));
    MacRead(c.bssid);
    ReadOne(n, "bssid " + MacText(c.bssid));
  }

  lemma HiddenRead(n: Network)
    ensures ReadAll(n, ["scan_ssid 1"]) == Some(n.(hidden := true))
  {
    hide Key, Rest;
    assert "scan_ssid 1" == "scan_ssid" + " 1";
    KeyAndRest("scan_ssid", " 1");
    ReadOne(n, "scan_ssid 1");
  }

  // ---------- The whole configuration ----------

  lemma AllCiphersRead(n: Network, c: Settings, p: Platform)
    requires n.pairwise == {1, 2} && n.group == {1, 2}
    ensures ReadAll(n, AllCipherArgs(c, p)) == Some(
              if UsesCiphers(c, p) then n.(pairwise := AsRead(Allowed(c.pairwise, p)), group := AsRead(Allowed(c.group, p))) else n)
  {
    hide UsesCiphers, Allowed, AsRead, CipherArgs;
    var pairwise, group := Allowed(c.pairwise, p), Allowed(c.group, p);
    CiphersRead(n, pairwise);
    GroupRead(n.(pairwise := AsRead(pairwise)), group);
    ReadAppend(n, CipherArgs("pairwise", pairwise), CipherArgs("group", group));
    ReadOne(n, "");
  }

  function SecretRead(c: Settings, s: set<nat>): Secret {
    if 0 in s && |c.passphrase| in {5, 13, 16} then Wep(c.passphrase)
    else if (c.passphrase != "" || 17 in s) && (3 in s || 9 in s) then Passphrase(c.passphrase)
    else NoKey
  }

  lemma KeyRead(n: Network, c: Settings, p: Platform)
    requires n.secret == NoKey && !n.shared
    ensures var s := Suites(c, p);
            var secret := SecretRead(c, s);
            ReadAll(n, KeyArgs(c, p)) == Some(n.(secret := secret, shared := secret.Wep?))
  {
    hide ReadAll, Suites;
    var s := Suites(c, p);
    assert (3 in s ==> 3 in s * {3, 9}) && (9 in s ==> 9 in s * {3, 9});
    WepRead(n, c.passphrase);
    PskRead(n, c.passphrase);
    ReadOne(n, "");
  }

  lemma MfpRead(n: Network, c: Settings, p: Platform)
    requires n.protection == Off
    ensures ReadAll(n, MfpArgs(c, p)) == Some(n.(protection :=
              if !p.mfp || (c.passphrase == "" && 17 !in Suites(c, p)) then Off else if c.mfpr then Required else Optional))
  {
    hide ReadAll, Suites;
    ProtectionRead(n, c.mfpr);
    ReadOne(n, "");
  }

  /** Everything the supplicant reads from the arguments, when it is set up from new: the network name, whether
      only RSN is allowed, the suites, the pairwise and the group ciphers each under its own word, the key
      with its kind, whether protected frames are required, and the access point's address. */
  lemma ArgumentsRead(c: Settings, p: Platform)
    requires c.Valid()
    ensures ReadAll(NewNetwork(), Arguments(c, p)) != None
    ensures var n := ReadAll(NewNetwork(), Arguments(c, p)).value;
            var keyed := c.passphrase != "" || 17 in n.suites;
            && n.name == c.ssid && n.rsnOnly == (c.akm != {} && 1 !in c.akm) && n.hidden && n.suites == Suites(c, p)
            && n.secret == (if 0 in n.suites && |c.passphrase| in {5, 13, 16} then Wep(c.passphrase)
                            else if keyed && (3 in n.suites || 9 in n.suites) then Passphrase(c.passphrase) else NoKey)
            && n.shared == n.secret.Wep?
            && n.protection == (if !keyed || !p.mfp then Off else if c.mfpr then Required else Optional)
            && n.bssid == (if c.bssid[..3] == [0, 0, 0] then None else Some(c.bssid))
    ensures var n := ReadAll(NewNetwork(), Arguments(c, p)).value;
            if 3 in n.suites || 9 in n.suites || 17 in n.suites then
              forall k: nat :: (k in n.pairwise <==> k < 12 && k in p.ciphers && (c.pairwise == {} || k in c.pairwise))
                               && (k in n.group <==> k < 12 && k in p.ciphers && (c.group == {} || k in c.group))
            else n.pairwise == {1, 2} && n.group == {1, 2}
  {
    hide ReadAll, Suites, SsidArgs, ProtoArgs, SuiteArgs, AllCipherArgs, KeyArgs, MfpArgs, BssidArgs, UsesCiphers, Allowed, AsRead;
    var n1 := NewNetwork().(name := c.ssid, rsnOnly := c.akm != {} && 1 !in c.akm);
    var n2 := n1.(suites := Suites(c, p));
    var a2 := SsidArgs(c) + ProtoArgs(c) + SuiteArgs(c, p);
    SsidRead(NewNetwork(), c);
    ProtoRead(NewNetwork().(name := c.ssid), c);
    SuitesRead(n1, c, p);
    ReadAppend(NewNetwork(), SsidArgs(c), ProtoArgs(c));
    ReadAppend(NewNetwork(), SsidArgs(c) + ProtoArgs(c), SuiteArgs(c, p));
    AllCiphersRead(n2, c, p);
    ReadAppend(NewNetwork(), a2, AllCipherArgs(c, p));
    var n3 := ReadAll(n2, AllCipherArgs(c, p)).value;
    LaterRead(n3, c, p);
    ReadAppend(NewNetwork(), a2 + AllCipherArgs(c, p), KeyArgs(c, p) + MfpArgs(c, p) + BssidArgs(c) + ["scan_ssid 1"]);
    assert Arguments(c, p) == a2 + AllCipherArgs(c, p) + (KeyArgs(c, p) + MfpArgs(c, p) + BssidArgs(c) + ["scan_ssid 1"]);
    CiphersMean(c, p);
  }

  lemma LaterRead(n: Network, c: Settings, p: Platform)
    requires c.Valid() && n.secret == NoKey && !n.shared && n.protection == Off && n.bssid == None && !n.hidden
    ensures var s := Suites(c, p);
            var secret := SecretRead(c, s);
            ReadAll(n, KeyArgs(c, p) + MfpArgs(c, p) + BssidArgs(c) + ["scan_ssid 1"]) == Some(n.(
              secret := secret, shared := secret.Wep?,
              protection := if !p.mfp || (c.passphrase == "" && 17 !in s) then Off else if c.mfpr then Required else Optional,
              bssid := if c.bssid[..3] == [0, 0, 0] then None else Some(c.bssid), hidden := true))
  {
    hide ReadAll, Suites, KeyArgs, MfpArgs, BssidArgs, SecretRead;
    KeyRead(n, c, p);
    var n1 := ReadAll(n, KeyArgs(c, p)).value;
    MfpRead(n1, c, p);
    var n2 := ReadAll(n1, MfpArgs(c, p)).value;
    RestRead(n2, c);
    var n3 := ReadAll(n2, BssidArgs(c)).value;
    HiddenRead(n3);
    ReadAppend(n, KeyArgs(c, p), MfpArgs(c, p));
    ReadAppend(n, KeyArgs(c, p) + MfpArgs(c, p), BssidArgs(c));
    ReadAppend(n, KeyArgs(c, p) + MfpArgs(c, p) + BssidArgs(c), ["scan_ssid 1"]);
  }

  lemma CiphersMean(c: Settings, p: Platform)
    ensures UsesCiphers(c, p) <==> 3 in Suites(c, p) || 9 in Suites(c, p) || 17 in Suites(c, p)
    ensures forall k: nat :: (k in AsRead(Allowed(c.pairwise, p)) <==> k < 12 && k in p.ciphers && (c.pairwise == {} || k in c.pairwise))
                             && (k in AsRead(Allowed(c.group, p)) <==> k < 12 && k in p.ciphers && (c.group == {} || k in c.group))
  {
    var s := Suites(c, p);
    hide Suites;
    assert (3 in s ==> 3 in s * {PSK, SAE, OWE}) && (9 in s ==> 9 in s * {PSK, SAE, OWE}) && (17 in s ==> 17 in s * {PSK, SAE, OWE});
  }

  /** Which suites these are: the defaults for a short and for a long passphrase, WEP for the pre-RSN suite
      alone, and otherwise those wished for that the program supports. */
  lemma SuitesMean(c: Settings, p: Platform)
    ensures c.akm == {} ==> Suites(c, p) == if |c.passphrase| < 8 then {0} else {3, 7, 9}
    ensures c.akm == {1} ==> Suites(c, p) == {0}
    ensures c.akm != {} && c.akm != {1} ==>
              forall k: nat :: k in Suites(c, p) <==> k in c.akm && (k in {0, 3, 7, 9, 17} || (k == 5 && p.ft))
  {
  }

  /** Settings are refused exactly if no suite is left, or a cipher is needed and no pairwise or no group
      cipher is left. */
  lemma SupportedIff(c: Settings, p: Platform)
    ensures Supported(c, p) <==>
            && Suites(c, p) != {}
            && (3 in Suites(c, p) || 9 in Suites(c, p) || 17 in Suites(c, p) ==>
                  (exists k :: k in p.ciphers && (c.pairwise == {} || k in c.pairwise))
                  && exists k :: k in p.ciphers && (c.group == {} || k in c.group))
  {
    hide Suites;
    CiphersMean(c, p);
    SomeAllowed(c.pairwise, p);
    SomeAllowed(c.group, p);
  }

  lemma SomeAllowed(wanted: set<nat>, p: Platform)
    ensures Allowed(wanted, p) != {} <==> exists k :: k in p.ciphers && (wanted == {} || k in wanted)
  {
    if k :| k in p.ciphers && (wanted == {} || k in wanted) { assert k in Allowed(wanted, p); }
    if k :| k in Allowed(wanted, p) { assert k in p.ciphers && (wanted == {} || k in wanted); }
  }
}
