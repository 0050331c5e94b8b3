/** Critic replies and the quorum that counts them. */
module Verdict {

  predicate IsSpace(c: char) {
    c == ' ' || '\t' <= c <= '\r'
  }

  predicate IsAlphanumeric(c: char) {
    '0' <= c <= '9' || 'a' <= c <= 'z' || 'A' <= c <= 'Z'
  }

  function TrimStart(s: string): string {
    if s != "" && IsSpace(s[0]) then TrimStart(s[1..]) else s
  }

  function TrimEnd(s: string): string {
    if s != "" && IsSpace(s[|s| - 1]) then TrimEnd(s[..|s| - 1]) else s
  }

  function Trim(s: string): string {
    TrimEnd(TrimStart(s))
  }

  function TrimSeparators(s: string): string {
    if s != "" && (IsSpace(s[0]) || s[0] == '-' || s[0] == ':') then TrimSeparators(s[1..]) else s
  }

  /** The token leads the reply and ends at a word boundary. */
  predicate LeadsWith(reply: string, token: string) {
    token <= reply && (|reply| == |token| || !IsAlphanumeric(reply[|token|]))
  }

  function ReasonBehind(reply: string, token: string): string
    requires token <= reply
  {
    var reason := Trim(TrimSeparators(reply[|token|..]));
    if reason == "" then reply else reason
  }

  datatype Verdict = Verdict(passed: bool, reason: string)

  /** The loop over the two tokens, in order. */
  method ParseCriticVerdict(reply: string) returns (v: Verdict)
    ensures v == VerdictOf(reply)
  {
    var trimmed := Trim(reply);
    var tokens := [("PASS", true), ("FAIL", false)];
    for k := 0 to 2
      invariant k > 0 ==> !LeadsWith(trimmed, "PASS")
      invariant k > 1 ==> !LeadsWith(trimmed, "FAIL")
    {
      var (token, passed) := tokens[k];
      if LeadsWith(trimmed, token) {
        return Verdict(passed, ReasonBehind(trimmed, token));
      }
    }
    v := Verdict(false, trimmed);
  }

  function VerdictOf(reply: string): Verdict {
    var trimmed := Trim(reply);
    if LeadsWith(trimmed, "PASS") then Verdict(true, ReasonBehind(trimmed, "PASS"))
    else if LeadsWith(trimmed, "FAIL") then Verdict(false, ReasonBehind(trimmed, "FAIL"))
    else Verdict(false, trimmed)
  }

  predicate IsSeparator(c: char) {
    IsSpace(c) || c == '-' || c == ':'
  }

  lemma {:induction false} SeparatorsGo(sep: string, text: string)
    requires (forall c | c in sep :: IsSeparator(c)) && text != "" && !IsSeparator(text[0])
    ensures TrimSeparators(sep + text) == text
  {
    if sep == "" {
      assert sep + text == text;
    } else {
      assert sep[0] in sep && (sep + text)[1..] == sep[1..] + text;
      SeparatorsGo(sep[1..], text);
    }
  }

  lemma TightText(s: string)
    requires s != "" && !IsSpace(s[0]) && !IsSpace(s[|s| - 1])
    ensures Trim(s) == s
  {
  }

  /** What stands behind the token and blanks, dashes and colons is the reason. */
  lemma ReasonRead(pass: bool, sep: string, text: string)
    requires sep != "" && forall c | c in sep :: IsSeparator(c)
    requires text != "" && !IsSeparator(text[0]) && !IsSpace(text[|text| - 1])
    ensures VerdictOf((if pass then "PASS" else "FAIL") + sep + text) == Verdict(pass, text)
  {
    hide Trim, TrimSeparators;
    var token := if pass then "PASS" else "FAIL";
    var reply := token + sep + text;
    TightText(reply);
    assert reply[4..] == sep + text && sep[0] in sep && reply[4] == sep[0];
    assert reply[0] == token[0];
    SeparatorsGo(sep, text);
    TightText(text);
  }

  /** A reply without a token does not pass, and is its own reason. */
  lemma NoToken(reply: string)
    requires reply != "" && !IsSpace(reply[0]) && !IsSpace(reply[|reply| - 1])
    requires reply[0] != 'P' && reply[0] != 'F'
    ensures VerdictOf(reply) == Verdict(false, reply)
  {
    hide Trim;
    TightText(reply);
    assert "PASS"[0] == 'P' && "FAIL"[0] == 'F';
  }

  ghost predicate Blank(s: string) {
    forall j | 0 <= j < |s| :: IsSpace(s[j])
  }

  /** Trimming drops blanks in front and behind, and as many as there are. */
  lemma {:induction false} TrimStartDropsBlanks(s: string) returns (k: nat)
    ensures k <= |s| && TrimStart(s) == s[k..] && Blank(s[..k])
    ensures k < |s| ==> !IsSpace(s[k])
  {
    k := 0;
    if s != "" && IsSpace(s[0]) {
      k := TrimStartDropsBlanks(s[1..]);
      assert s[1..][k..] == s[k + 1..];
      assert s[..k + 1] == [s[0]] + s[1..][..k];
      k := k + 1;
    }
  }

  lemma {:induction false} TrimEndDropsBlanks(s: string) returns (k: nat)
    ensures k <= |s| && TrimEnd(s) == s[..k] && Blank(s[k..])
    ensures k > 0 ==> !IsSpace(s[k - 1])
  {
    k := |s|;
    if s != "" && IsSpace(s[|s| - 1]) {
      var t := s[..|s| - 1];
      k := TrimEndDropsBlanks(t);
      assert t[..k] == s[..k];
      assert s[k..] == t[k..] + [s[|s| - 1]];
    }
  }

  /** Behind blanks, `reply` reads PASS at `k`, and no letter or digit follows. */
  ghost predicate PassAt(reply: string, k: nat) {
    && k + 4 <= |reply|
    && Blank(reply[..k])
    && reply[k..k + 4] == "PASS"
    && (k + 4 == |reply| || !IsAlphanumeric(reply[k + 4]))
  }

  /**
   Fail closed: a reply passes exactly when, behind blanks, it reads PASS and then ends or goes on
   with a character that is neither letter nor digit.
   */
  lemma PassesOnlyOnLeadingPass(reply: string)
    ensures VerdictOf(reply).passed <==> exists k: nat :: PassAt(reply, k)
  {
    var k := TrimStartDropsBlanks(reply);
    var s := reply[k..];
    var e := TrimEndDropsBlanks(s);
    assert Trim(reply) == s[..e];
    if LeadsWith(s[..e], "PASS") {
      LeadIsPassAt(reply, k, e);
    }
    if m: nat :| PassAt(reply, m) {
      assert reply[m] == reply[m..m + 4][0];
      SameStart(reply, k, m);
      PassAtIsLead(reply, k, e);
    }
  }

  /** Blanks up to a first character that is none: there is one such place. */
  lemma SameStart(s: string, k: nat, m: nat)
    requires k < |s| && m < |s| && Blank(s[..k]) && Blank(s[..m]) && !IsSpace(s[k]) && !IsSpace(s[m])
    ensures k == m
  {
    assert forall j | 0 <= j < k :: s[..k][j] == s[j];
    assert forall j | 0 <= j < m :: s[..m][j] == s[j];
  }

  lemma EndsBehind(s: string, e: nat, i: nat)
    requires e <= |s| && i < |s| && Blank(s[e..]) && !IsSpace(s[i])
    ensures i < e
  {
    assert forall j | e <= j < |s| :: s[e..][j - e] == s[j];
  }

  lemma LeadIsPassAt(reply: string, k: nat, e: nat)
    requires k <= |reply| && e <= |reply[k..]| && Blank(reply[..k]) && Blank(reply[k..][e..])
    requires LeadsWith(reply[k..][..e], "PASS")
    ensures PassAt(reply, k)
  {
    var s := reply[k..];
    assert s[..e][..4] == "PASS";
    assert reply[k..k + 4] == s[..e][..4];
    if k + 4 < |reply| {
      assert reply[k + 4] == s[4];
      if e > 4 {
        assert s[..e][4] == s[4];
      } else {
        assert s[e..][4 - e] == s[4];
      }
    }
  }

  lemma PassAtIsLead(reply: string, k: nat, e: nat)
    requires PassAt(reply, k) && e <= |reply[k..]| && Blank(reply[k..][e..])
    ensures LeadsWith(reply[k..][..e], "PASS")
  {
    var s := reply[k..];
    assert s[3] == reply[k..k + 4][3] == 'S';
    assert e >= 4 by {
      EndsBehind(s, e, 3);
    }
    assert s[..e][..4] == reply[k..k + 4];
    if e > 4 {
      assert s[..e][4] == reply[k + 4];
    }
  }
}
