// The sign-in message of accounts.py and the two patterns that read its nonce back: the anchored
// one of the partner exchange and the unanchored one of wallet_verify.

module SiweText {

  const NL: char := '\n'
  const WANTS: string := " wants you " + "to sign in " + "with your " + "Ethereum " + "account:"

  datatype Fields = Fields(domain: string, address: string, uri: string, chainId: string, nonce: string,
    issuedAt: string, expirationTime: string, statement: string)

  predicate Hex(c: char)
  {
    '0' <= c <= '9' || 'a' <= c <= 'f' || 'A' <= c <= 'F'
  }

  /** "Nonce: " stands at p. */
  predicate WordAt(s: string, p: nat)
  {
    && p + 7 <= |s|
    && s[p] == 'N' && s[p + 1] == 'o' && s[p + 2] == 'n' && s[p + 3] == 'c' && s[p + 4] == 'e'
    && s[p + 5] == ':' && s[p + 6] == ' '
  }

  // ---- the two patterns -------------------------------------------------------------------

  /** A newline, "Nonce: ", 32 hex digits and a newline match at p. */
  predicate Match32(s: string, p: nat)
  {
    && p + 41 <= |s| && s[p] == NL && WordAt(s, p + 1)
    && (forall i :: p + 8 <= i < p + 40 ==> Hex(s[i]))
    && s[p + 40] == NL
  }

  /** The first match captures n. */
  ghost predicate Finds32(s: string, n: string)
  {
    exists p :: Match32(s, p) && s[p + 8..p + 40] == n && forall q :: 0 <= q < p ==> !Match32(s, q)
  }

  /** "Nonce: " and at least one hex digit match at p. */
  predicate MatchAny(s: string, p: nat)
  {
    p + 8 <= |s| && NonceWord(s[p..p + 8])
  }

  predicate NonceWord(w: string)
    requires |w| == 8
  {
    WordAt(w, 0) && Hex(w[7])
  }

  ghost predicate FirstAny(s: string, p: nat)
  {
    MatchAny(s, p) && forall q :: 0 <= q < p ==> !MatchAny(s, q)
  }

  /** The digits a match takes: as many as there are. */
  function HexRun(s: string): string
  {
    if s == [] || !Hex(s[0]) then [] else [s[0]] + HexRun(s[1..])
  }

  ghost predicate FindsAny(s: string, n: string)
  {
    exists p :: FirstAny(s, p) && HexRun(s[p + 7..]) == n
  }

  // ---- text as lines ----------------------------------------------------------------------

  predicate OneLine(s: string)
  {
    forall i :: 0 <= i < |s| ==> s[i] != NL
  }

  predicate AllOneLine(ls: seq<string>)
  {
    forall k :: 0 <= k < |ls| ==> OneLine(ls[k])
  }

  function Join(ls: seq<string>): string
    requires ls != []
  {
    if |ls| == 1 then ls[0] else ls[0] + [NL] + Join(ls[1..])
  }

  /** Where line k starts. */
  function Start(ls: seq<string>, k: nat): nat
    requires k < |ls|
  {
    if k == 0 then 0 else |ls[0]| + 1 + Start(ls[1..], k - 1)
  }

  /** A line stands where it starts. */
  lemma {:induction false} LineSlice(ls: seq<string>, k: nat)
    requires k < |ls|
    ensures Start(ls, k) + |ls[k]| <= |Join(ls)|
    ensures Join(ls)[Start(ls, k)..Start(ls, k) + |ls[k]|] == ls[k]
  {
    if k > 0 {
      LineSlice(ls[1..], k - 1);
      SliceOf(ls[0] + [NL], Join(ls[1..]), Start(ls[1..], k - 1), |ls[k]|);
      assert ls[0] + [NL] + Join(ls[1..]) == Join(ls);
    } else if |ls| > 1 {
      assert Join(ls)[..|ls[0]|] == ls[0];
    }
  }

  lemma SliceOf(head: string, tail: string, a: nat, n: nat)
    requires a + n <= |tail|
    ensures (head + tail)[|head| + a..|head| + a + n] == tail[a..a + n]
  {
  }

  /** And line breaks stand around it. */
  lemma {:induction false} LineAt(ls: seq<string>, k: nat)
    requires k < |ls|
    ensures Start(ls, k) + |ls[k]| <= |Join(ls)|
    ensures Join(ls)[Start(ls, k)..Start(ls, k) + |ls[k]|] == ls[k]
    ensures k > 0 ==> Start(ls, k) > 0 && Join(ls)[Start(ls, k) - 1] == NL
    ensures k + 1 < |ls| ==> Start(ls, k) + |ls[k]| < |Join(ls)| && Join(ls)[Start(ls, k) + |ls[k]|] == NL
    ensures k + 1 == |ls| ==> Start(ls, k) + |ls[k]| == |Join(ls)|
  {
    LineSlice(ls, k);
    if k > 0 {
      LineAt(ls[1..], k - 1);
      BreaksShift(ls[0] + [NL], Join(ls[1..]), Start(ls[1..], k - 1), |ls[k]|);
      assert ls[0] + [NL] + Join(ls[1..]) == Join(ls);
    }
  }

  lemma BreaksShift(head: string, tail: string, a: nat, n: nat)
    requires a + n <= |tail| && head != ""
    ensures a > 0 ==> (head + tail)[|head| + a - 1] == tail[a - 1]
    ensures a == 0 ==> (head + tail)[|head| + a - 1] == head[|head| - 1]
    ensures a + n < |tail| ==> (head + tail)[|head| + a + n] == tail[a + n]
  {
  }

  /** What stands inside a line stands in the text. */
  lemma InLine(ls: seq<string>, k: nat, q: nat)
    requires k < |ls|
    ensures Start(ls, k) <= q < Start(ls, k) + |ls[k]| ==>
              q < |Join(ls)| && Join(ls)[q] == ls[k][q - Start(ls, k)]
  {
    LineAt(ls, k);
    var a := Start(ls, k);
    var line := Join(ls)[a..a + |ls[k]|];
    if a <= q < a + |ls[k]| {
      assert Join(ls)[q] == line[q - a];
    }
  }

  lemma SliceMatch(s: string, a: nat, l: string, p: nat)
    requires a + |l| <= |s| && s[a..a + |l|] == l && p + 8 <= |l|
    ensures MatchAny(s, a + p) <==> MatchAny(l, p)
  {
    SubSlice(s, a, l, p, 8);
  }

  lemma SubSlice(s: string, a: nat, l: string, from: nat, n: nat)
    requires a + |l| <= |s| && s[a..a + |l|] == l && from + n <= |l|
    ensures s[a + from..a + from + n] == l[from..from + n]
  {
    var u, v := s[a + from..a + from + n], l[from..from + n];
    forall i | 0 <= i < n ensures u[i] == v[i] {
      assert s[a..a + |l|][from + i] == s[a + from + i];
    }
  }

  lemma InLineMatch(ls: seq<string>, k: nat, p: nat)
    requires k < |ls| && p + 8 <= |ls[k]|
    ensures MatchAny(Join(ls), Start(ls, k) + p) <==> MatchAny(ls[k], p)
  {
    LineSlice(ls, k);
    SliceMatch(Join(ls), Start(ls, k), ls[k], p);
  }

  /** A stretch without newlines lies in one of the joined texts. */
  lemma {:induction false} Locate(ls: seq<string>, p: nat, len: nat) returns (k: nat)
    requires ls != [] && 0 < len && p + len <= |Join(ls)|
    requires forall i :: p <= i < p + len ==> Join(ls)[i] != NL
    ensures k < |ls| && Start(ls, k) <= p && p + len <= Start(ls, k) + |ls[k]|
  {
    k := 0;
    if |ls| > 1 {
      var n, rest := |ls[0]|, Join(ls[1..]);
      assert Join(ls)[n] == NL;
      if p > n {
        forall i | p - n - 1 <= i < p - n - 1 + len ensures rest[i] != NL {
          assert Join(ls)[n + 1 + i] == rest[i];
        }
        k := Locate(ls[1..], p - n - 1, len);
        k := k + 1;
      }
    }
  }

  lemma {:induction false} StartsApart(ls: seq<string>, i: nat, j: nat)
    requires i < j < |ls|
    ensures Start(ls, i) + |ls[i]| < Start(ls, j)
  {
    if i > 0 {
      StartsApart(ls[1..], i - 1, j - 1);
    }
  }

  /** A line that is "Nonce: " and 32 hex digits. */
  predicate NonceLine(l: string)
  {
    |l| == 39 && WordAt(l, 0) && forall i :: 7 <= i < 39 ==> Hex(l[i])
  }

  /** The anchored pattern matches exactly at the lines of that form, other than the first and last. */
  lemma MatchesAreLines(ls: seq<string>, p: nat) returns (k: nat)
    requires ls != [] && AllOneLine(ls) && Match32(Join(ls), p)
    ensures 0 < k < |ls| - 1 && NonceLine(ls[k]) && p + 1 == Start(ls, k)
  {
    k := Locate(ls, p + 1, 39);
    LineAt(ls, k);
    var a := Start(ls, k);
    InLine(ls, k, p);
    assert a == p + 1;
    InLine(ls, k, p + 40);
    assert |ls[k]| == 39;
    forall i | 0 <= i < 39 ensures Join(ls)[a + i] == ls[k][i] {
      InLine(ls, k, a + i);
    }
  }

  lemma LineMatches(ls: seq<string>, k: nat)
    requires 0 < k < |ls| - 1 && NonceLine(ls[k])
    ensures Start(ls, k) > 0 && Match32(Join(ls), Start(ls, k) - 1)
    ensures Join(ls)[Start(ls, k) + 7..Start(ls, k) + 39] == ls[k][7..]
  {
    LineAt(ls, k);
    var s, a := Join(ls), Start(ls, k);
    assert s[a..a + 39] == ls[k];
    assert forall i :: 0 <= i < 39 ==> s[a + i] == ls[k][i];
  }

  /** The first match is the first such line. */
  lemma FirstLine(ls: seq<string>, k: nat)
    requires AllOneLine(ls) && 0 < k < |ls| - 1 && NonceLine(ls[k])
    requires forall j :: 0 < j < k ==> !NonceLine(ls[j])
    ensures Finds32(Join(ls), ls[k][7..])
  {
    LineMatches(ls, k);
    var s, p := Join(ls), Start(ls, k) - 1;
    forall q | 0 <= q < p ensures !Match32(s, q) {
      NoneEarlier(ls, k, q);
    }
    assert Match32(s, p);
    assert s[p + 8..p + 40] == ls[k][7..];
  }

  lemma NoneEarlier(ls: seq<string>, k: nat, q: nat)
    requires AllOneLine(ls) && 0 < k < |ls| - 1 && q + 1 < Start(ls, k)
    requires forall j :: 0 < j < k ==> !NonceLine(ls[j])
    ensures !Match32(Join(ls), q)
  {
    if Match32(Join(ls), q) {
      var j := MatchesAreLines(ls, q);
      if j > k {
        StartsApart(ls, k, j);
      }
    }
  }

  // ---- the message ------------------------------------------------------------------------

  function Lines(f: Fields): (ls: seq<string>)
    ensures |ls| == 11
  {
    [f.domain + WANTS, f.address, "", f.statement, "", "URI: " + f.uri, "Version: 1", "Chain ID: " + f.chainId,
     "Nonce: " + f.nonce, "Issued At: " + f.issuedAt, "Expiration Time: " + f.expirationTime]
  }

  /** _siwe_message. */
  function SiweMessage(f: Fields): string
  {
    Join(Lines(f))
  }

  predicate HexDigits(s: string)
  {
    forall i :: 0 <= i < |s| ==> Hex(s[i])
  }

  /** Any URI will do: one with a line break passes the domain check. */
  predicate Plain(f: Fields)
  {
    && OneLine(f.domain) && OneLine(f.address) && OneLine(f.chainId)
    && OneLine(f.issuedAt) && OneLine(f.expirationTime) && OneLine(f.statement)
    && |f.nonce| == 32 && HexDigits(f.nonce)
    && 'N' !in f.chainId
  }

  /** Fixed text that neither breaks a line nor begins a match. */
  predicate Quiet(s: string)
  {
    'N' !in s && OneLine(s)
  }

  lemma QuietJoin(a: string, b: string)
    requires Quiet(a) && Quiet(b)
    ensures Quiet(a + b)
  {
  }

  lemma WantsText()
    ensures |WANTS| >= 2 && WANTS[0] == ' ' && WANTS[1] == 'w'
    ensures Quiet(WANTS)
  {
    assert Quiet(" wants you ");
    assert Quiet("to sign in ");
    assert Quiet("with your ");
    assert Quiet("Ethereum ");
    assert Quiet("account:");
    QuietJoin(" wants you ", "to sign in ");
    QuietJoin(" wants you " + "to sign in ", "with your ");
    QuietJoin(" wants you " + "to sign in " + "with your ", "Ethereum ");
    QuietJoin(" wants you " + "to sign in " + "with your " + "Ethereum ", "account:");
  }

  // ---- what the exchange's pattern finds ------------------------------------------------------

  /** The lines of a text. */
  function LinesOf(s: string): (ls: seq<string>)
    ensures ls != [] && AllOneLine(ls) && Join(ls) == s
  {
    if s == "" then [""]
    else
      var rest := LinesOf(s[1..]);
      if s[0] == NL then [""] + rest else [[s[0]] + rest[0]] + rest[1..]
  }

  lemma JoinFirst(head: string, rest: seq<string>)
    requires rest != []
    ensures Join([head] + rest) == head + [NL] + Join(rest)
  {
    assert ([head] + rest)[1..] == rest;
  }

  lemma {:induction false} JoinTail(b: seq<string>, c: seq<string>)
    requires b != []
    ensures Join([Join(b)] + c) == Join(b + c)
  {
    if |b| == 1 {
      assert b == [Join(b)];
    } else {
      var rest := b[1..];
      JoinTail(rest, c);
      assert b + c == [b[0]] + (rest + c);
      JoinFirst(b[0], rest + c);
      if c != [] {
        JoinFirst(Join(b), c);
        JoinFirst(Join(rest), c);
      }
    }
  }

  /** Joining lines and then joining the result with others is joining them all. */
  lemma {:induction false} JoinNested(a: seq<string>, b: seq<string>, c: seq<string>)
    requires b != []
    ensures Join(a + [Join(b)] + c) == Join(a + b + c)
    decreases |a|
  {
    if a == [] {
      JoinTail(b, c);
      assert a + [Join(b)] + c == [Join(b)] + c && a + b + c == b + c;
    } else {
      var one, all := a[1..] + [Join(b)] + c, a[1..] + b + c;
      JoinNested(a[1..], b, c);
      JoinFirst(a[0], one);
      JoinFirst(a[0], all);
      assert a + [Join(b)] + c == [a[0]] + one && a + b + c == [a[0]] + all;
    }
  }

  function UriLines(f: Fields): seq<string>
  {
    LinesOf("URI: " + f.uri)
  }

  /** The message line by line, those of the URI included. */
  function FlatLines(f: Fields): seq<string>
  {
    Lines(f)[..5] + UriLines(f) + Lines(f)[6..]
  }

  lemma FlatText(f: Fields)
    ensures Join(FlatLines(f)) == SiweMessage(f)
  {
    JoinNested(Lines(f)[..5], UriLines(f), Lines(f)[6..]);
    assert Lines(f)[..5] + [Join(UriLines(f))] + Lines(f)[6..] == Lines(f);
  }

  lemma FlatIsOneLine(f: Fields)
    requires Plain(f)
    ensures AllOneLine(FlatLines(f))
  {
    var ls := Lines(f);
    WantsText();
    assert OneLine("Version: 1");
    assert AllOneLine(ls[..5]) && OneLine(ls[7]);
    assert OneLine(ls[8]) && OneLine(ls[9]) && OneLine(ls[10]);
    assert AllOneLine(ls[6..]);
  }

  /** The digits of the first nonce line, or else these. */
  function FirstDigits(ls: seq<string>, otherwise: string): string
  {
    if ls == [] then otherwise else if NonceLine(ls[0]) then ls[0][7..] else FirstDigits(ls[1..], otherwise)
  }

  lemma {:induction false} FirstDigitsAt(ls: seq<string>, otherwise: string) returns (k: nat)
    ensures k <= |ls| && forall j :: 0 <= j < k ==> !NonceLine(ls[j])
    ensures if k < |ls| then NonceLine(ls[k]) && FirstDigits(ls, otherwise) == ls[k][7..]
            else FirstDigits(ls, otherwise) == otherwise
  {
    k := 0;
    if ls != [] && !NonceLine(ls[0]) {
      k := FirstDigitsAt(ls[1..], otherwise);
      k := k + 1;
    }
  }

  /** Where the fixed and the free lines stand. */
  lemma FlatAt(f: Fields)
    ensures var (ls, n) := (FlatLines(f), |UriLines(f)|);
            && |ls| == n + 10 && ls[1] == f.address && ls[3] == f.statement
            && !NonceLine(ls[2]) && !NonceLine(ls[4]) && !NonceLine(ls[n + 5]) && !NonceLine(ls[n + 6])
            && (forall j :: 5 <= j < n + 5 ==> ls[j] == UriLines(f)[j - 5])
            && (|f.nonce| == 32 && HexDigits(f.nonce) ==> NonceLine(ls[n + 7]) && ls[n + 7][7..] == f.nonce)
  {
    var fixed := Lines(f);
    assert fixed[6][0] == 'V' && fixed[7][0] == 'C';
    assert fixed[8][7..] == f.nonce;
  }

  lemma UriFinds(f: Fields)
    requires Plain(f) && !NonceLine(f.address) && !NonceLine(f.statement)
    ensures Finds32(SiweMessage(f), FirstDigits(UriLines(f), f.nonce))
  {
    var n := |UriLines(f)|;
    var k := FirstDigitsAt(UriLines(f), f.nonce);
    FlatText(f);
    FlatIsOneLine(f);
    FlatAt(f);
    FirstLine(FlatLines(f), if k < n then k + 5 else n + 7);
  }

  /** Whatever the fields hold, a URI with line breaks included: the exchange's pattern captures the minted
      nonce unless the address, the statement or a line of the URI is itself a nonce line, and then it captures
      the first such one. */
  lemma ExchangeFinds(f: Fields)
    requires Plain(f)
    ensures Finds32(SiweMessage(f),
      if NonceLine(f.address) then f.address[7..]
      else if NonceLine(f.statement) then f.statement[7..]
      else FirstDigits(UriLines(f), f.nonce))
  {
    if NonceLine(f.address) || NonceLine(f.statement) {
      FlatText(f);
      FlatIsOneLine(f);
      FlatAt(f);
      FirstLine(FlatLines(f), if NonceLine(f.address) then 1 else 3);
    } else {
      UriFinds(f);
    }
  }

  lemma FoundOnce(s: string, m: string, n: string)
    requires Finds32(s, m) && Finds32(s, n)
    ensures m == n
  {
    var p :| Match32(s, p) && s[p + 8..p + 40] == m && forall q :: 0 <= q < p ==> !Match32(s, q);
    var q :| Match32(s, q) && s[q + 8..q + 40] == n && forall r :: 0 <= r < q ==> !Match32(s, r);
    assert p == q;
  }

  /** The first nonce line after the beginning of the text. */
  predicate FirstInner(ls: seq<string>, k: nat)
  {
    0 < k < |ls| && NonceLine(ls[k]) && forall j :: 0 < j < k ==> !NonceLine(ls[j])
  }

  lemma UriDigits(f: Fields) returns (k: nat)
    ensures if FirstInner(UriLines(f), k) then FirstDigits(UriLines(f), f.nonce) == UriLines(f)[k][7..]
            else FirstDigits(UriLines(f), f.nonce) == f.nonce && forall j: nat :: !FirstInner(UriLines(f), j)
  {
    assert !NonceLine(UriLines(f)[0]) by {
      assert UriLines(f)[0][0] == 'U';
    }
    k := FirstDigitsAt(UriLines(f), f.nonce);
  }

  /** So for a hex address, and a statement as the exchange makes it, it finds the minted nonce if and only if the
      first nonce line inside the URI, when there is one, repeats it; a URI on one line holds none. */
  lemma ExchangeFindsMinted(f: Fields)
    requires Plain(f) && f.address != "" && f.address[0] == '0' && f.statement != "" && f.statement[0] == 'S'
    ensures Finds32(SiweMessage(f), f.nonce) <==>
              forall k: nat :: FirstInner(UriLines(f), k) ==> UriLines(f)[k][7..] == f.nonce
    ensures OneLine(f.uri) ==> Finds32(SiweMessage(f), f.nonce)
  {
    UriFinds(f);
    var k := UriDigits(f);
    if Finds32(SiweMessage(f), f.nonce) {
      FoundOnce(SiweMessage(f), f.nonce, FirstDigits(UriLines(f), f.nonce));
    }
    if OneLine(f.uri) {
      OneLineText("URI: " + f.uri);
    }
  }

  lemma {:induction false} OneLineText(s: string)
    requires OneLine(s)
    ensures LinesOf(s) == [s]
  {
    if s != "" {
      OneLineText(s[1..]);
    }
  }

  lemma {:induction false} LinesOfBreak(s: string, t: string)
    requires OneLine(s)
    ensures LinesOf(s + [NL] + t) == [s] + LinesOf(t)
  {
    var text := s + [NL] + t;
    if s == "" {
      assert text[1..] == t && text[0] == NL;
    } else {
      LinesOfBreak(s[1..], t);
      assert text[1..] == s[1..] + [NL] + t && text[0] == s[0] != NL;
      assert LinesOf(text[1..])[0] == s[1..] && LinesOf(text[1..])[1..] == LinesOf(t);
      assert [s[0]] + s[1..] == s;
    }
  }

  lemma TwoLines(first: string, second: string)
    requires OneLine(first) && OneLine(second)
    ensures LinesOf(first + [NL] + second) == [first, second]
  {
    LinesOfBreak(first, second);
    OneLineText(second);
  }

  lemma MisledLines(f: Fields, before: string, second: string)
    requires OneLine(before) && OneLine(second) && f.uri == before + [NL] + second
    ensures UriLines(f) == ["URI: " + before, second]
  {
    TwoLines("URI: " + before, second);
    assert "URI: " + f.uri == "URI: " + before + [NL] + second;
  }

  lemma InnerLine(first: string, digits: string, otherwise: string)
    requires first != "" && first[0] == 'U' && |digits| == 32 && HexDigits(digits)
    ensures FirstDigits([first, "Nonce: " + digits], otherwise) == digits
  {
    var ls := [first, "Nonce: " + digits];
    assert NonceLine(ls[1]) && ls[1][7..] == digits;
    assert ls[1..] == [ls[1]];
  }

  /** A URI with a line break may hold a nonce line, which the pattern then finds in place of the minted one. */
  lemma ExchangeMisled(f: Fields, before: string, digits: string)
    requires Plain(f) && !NonceLine(f.address) && !NonceLine(f.statement)
    requires OneLine(before) && |digits| == 32 && HexDigits(digits)
    requires f.uri == before + [NL] + "Nonce: " + digits
    ensures Finds32(SiweMessage(f), digits)
  {
    MisledLines(f, before, "Nonce: " + digits);
    InnerLine("URI: " + before, digits, f.nonce);
    UriFinds(f);
  }

  predicate Free(s: string)
  {
    forall p :: 0 <= p < |s| ==> !MatchAny(s, p)
  }

  lemma WithoutN(l: string)
    requires 'N' !in l
    ensures Free(l)
  {
  }

  lemma DomainLine(domain: string, p: nat)
    requires MatchAny(domain + WANTS, p)
    ensures MatchAny(domain, p)
  {
    var l, n := domain + WANTS, |domain|;
    WantsText();
    assert l[n] == ' ' && l[n + 1] == 'w';
    assert forall i :: n <= i < |l| ==> l[i] == WANTS[i - n];
    assert forall i :: 0 <= i < n ==> l[i] == domain[i];
  }

  /** Where the minted nonce stands. */
  function NoncePosition(f: Fields): nat
  {
    Start(Lines(f), 8)
  }

  lemma FixedLines(f: Fields)
    requires 'N' !in f.chainId
    ensures Free(Lines(f)[2]) && Free(Lines(f)[4]) && Free(Lines(f)[6]) && Free(Lines(f)[7])
  {
    WithoutN("");
    WithoutN("Version: 1");
    WithoutN("Chain ID: " + f.chainId);
  }

  lemma UriLine(uri: string, p: nat)
    requires MatchAny("URI: " + uri, p)
    ensures p >= 5 && MatchAny(uri, p - 5)
  {
    var head, l := "URI: ", "URI: " + uri;
    assert forall i :: 0 <= i < 5 ==> l[i] == head[i] != 'N';
    assert l[p] == l[p..p + 8][0] == 'N';
    assert l[p..p + 8] == uri[p - 5..p + 3];
  }

  lemma EarlyLineFree(f: Fields, k: nat, p: nat)
    requires k < 8 && 'N' !in f.chainId && MatchAny(Lines(f)[k], p)
    ensures k == 0 ==> MatchAny(f.domain, p)
    ensures k == 1 ==> MatchAny(f.address, p)
    ensures k == 3 ==> MatchAny(f.statement, p)
    ensures k == 5 ==> p >= 5 && MatchAny(f.uri, p - 5)
    ensures k == 0 || k == 1 || k == 3 || k == 5
  {
    FixedLines(f);
    if k == 0 {
      DomainLine(f.domain, p);
    } else if k == 5 {
      UriLine(f.uri, p);
    }
  }

  lemma NonceLineMatches(f: Fields)
    requires Plain(f)
    ensures MatchAny(SiweMessage(f), NoncePosition(f))
  {
    assert Lines(f)[8][7] == f.nonce[0];
    InLineMatch(Lines(f), 8, 0);
  }

  /** The line a match before the minted nonce lies in. */
  lemma EarlyLine(ls: seq<string>, n: nat, q: nat) returns (k: nat)
    requires n < |ls| && q < Start(ls, n) && MatchAny(Join(ls), q)
    ensures k < n && Start(ls, k) <= q && MatchAny(ls[k], q - Start(ls, k))
  {
    k := Locate(ls, q, 8);
    InLineMatch(ls, k, q - Start(ls, k));
    if k > n {
      StartsApart(ls, n, k);
    }
  }

  /** A match before the minted nonce lies in one of four fields. */
  lemma EarlyMatch(f: Fields, q: nat)
    requires Plain(f) && q < NoncePosition(f) && MatchAny(SiweMessage(f), q)
    ensures !(Free(f.domain) && Free(f.address) && Free(f.statement) && Free(f.uri))
  {
    var k := EarlyLine(Lines(f), 8, q);
    EarlyLineFree(f, k, q - Start(Lines(f), k));
  }

  /** And a match in a line before it is a match before it. */
  lemma FieldMatch(ls: seq<string>, n: nat, k: nat, from: nat, p: nat)
    requires k < n < |ls| && from <= |ls[k]| && MatchAny(ls[k][from..], p)
    ensures Start(ls, k) + from + p < Start(ls, n)
    ensures MatchAny(Join(ls), Start(ls, k) + from + p)
  {
    StartsApart(ls, k, n);
    SliceMatch(ls[k], from, ls[k][from..], p);
    InLineMatch(ls, k, from + p);
  }

  lemma HeldMatch(ls: seq<string>, n: nat, k: nat, from: nat) returns (q: nat)
    requires k < n < |ls| && from <= |ls[k]| && !Free(ls[k][from..])
    ensures q < Start(ls, n) && MatchAny(Join(ls), q)
  {
    var p :| 0 <= p < |ls[k][from..]| && MatchAny(ls[k][from..], p);
    FieldMatch(ls, n, k, from, p);
    q := Start(ls, k) + from + p;
  }

  lemma FieldsInLines(f: Fields)
    ensures |Lines(f)[5]| >= 5 && Lines(f)[5][5..] == f.uri
    ensures Lines(f)[1][0..] == f.address && Lines(f)[3][0..] == f.statement
    ensures !Free(f.domain) ==> !Free(Lines(f)[0][0..])
  {
    var l := Lines(f)[0];
    assert l[0..] == f.domain + WANTS;
    if !Free(f.domain) {
      var p :| 0 <= p < |f.domain| && MatchAny(f.domain, p);
      assert l[0..0 + |f.domain|] == f.domain;
      SliceMatch(l, 0, f.domain, p);
      assert l[0..] == l;
    }
  }

  /** wallet_verify's pattern first matches at the minted nonce exactly when the domain, the address, the
      statement and the URI hold no "Nonce: " followed by a hex digit. */
  lemma VerifyFirst(f: Fields)
    requires Plain(f)
    ensures FirstAny(SiweMessage(f), NoncePosition(f))
       <==> Free(f.domain) && Free(f.address) && Free(f.statement) && Free(f.uri)
  {
    NonceLineMatches(f);
    if Free(f.domain) && Free(f.address) && Free(f.statement) && Free(f.uri) {
      forall q | 0 <= q < NoncePosition(f) ensures !MatchAny(SiweMessage(f), q) {
        if MatchAny(SiweMessage(f), q) {
          EarlyMatch(f, q);
        }
      }
    } else {
      FieldsInLines(f);
      var k := if !Free(f.domain) then 0 else if !Free(f.address) then 1 else if !Free(f.statement) then 3 else 5;
      var q := HeldMatch(Lines(f), 8, k, if k == 5 then 5 else 0);
    }
  }

  lemma {:induction false} RunStops(s: string, n: nat)
    requires n < |s| && HexDigits(s[..n]) && !Hex(s[n])
    ensures HexRun(s) == s[..n]
  {
    if n > 0 {
      assert s[..n][0] == s[0];
      var t := s[1..][..n - 1];
      forall i | 0 <= i < n - 1 ensures Hex(t[i]) {
        assert s[..n][i + 1] == t[i];
      }
      RunStops(s[1..], n - 1);
    }
  }

  /** And there it takes the whole nonce, so peeking and consuming use the minted one. */
  lemma VerifyFindsMinted(f: Fields)
    requires Plain(f)
    requires Free(f.domain) && Free(f.address) && Free(f.statement) && Free(f.uri)
    ensures FindsAny(SiweMessage(f), f.nonce)
  {
    VerifyFirst(f);
    var ls, s, a := Lines(f), SiweMessage(f), NoncePosition(f);
    LineAt(ls, 8);
    assert s[a..a + 39] == ls[8];
    assert s[a + 7..][..32] == ls[8][7..] == f.nonce;
    assert s[a + 7..][32] == s[a + 39] == NL;
    RunStops(s[a + 7..], 32);
  }

  lemma MisledUri(before: string, digits: string, c: char, after: string)
    requires digits != "" && HexDigits(digits) && !Hex(c)
    ensures var uri := before + "Nonce: " + digits + [c] + after;
      && MatchAny(uri, |before|)
      && uri[|before| + 7..][..|digits|] == digits
      && uri[|before| + 7..][|digits|] == c
  {
    var uri := before + "Nonce: " + digits + [c] + after;
    assert uri[|before|..][..7] == "Nonce: ";
    assert uri[|before| + 7] == digits[0];
  }

  lemma NoneBefore(f: Fields, b: nat, q: nat)
    requires Plain(f) && Free(f.domain) && Free(f.address) && Free(f.statement)
    requires b <= |f.uri| && 'N' !in f.uri[..b] && q < Start(Lines(f), 5) + 5 + b
    requires |Lines(f)[5]| >= 5 + b
    ensures !MatchAny(SiweMessage(f), q)
  {
    var ls := Lines(f);
    assert forall i :: 0 <= i < b ==> f.uri[..b][i] == f.uri[i];
    if MatchAny(Join(ls), q) {
      StartsApart(ls, 5, 8);
      var k := EarlyLine(ls, 8, q);
      EarlyLineFree(f, k, q - Start(ls, k));
    }
  }

  /** A URI may hold an earlier match: then the nonce looked up is the digits found there. */
  lemma VerifyMisled(f: Fields, before: string, digits: string, c: char, after: string)
    requires Plain(f) && Free(f.domain) && Free(f.address) && Free(f.statement)
    requires digits != "" && HexDigits(digits) && !Hex(c) && 'N' !in before
    requires f.uri == before + "Nonce: " + digits + [c] + after
    ensures FindsAny(SiweMessage(f), digits)
  {
    var ls, s, b := Lines(f), SiweMessage(f), |before|;
    var at := Start(ls, 5) + 5 + b;
    MisledUri(before, digits, c, after);
    FieldsInLines(f);
    assert f.uri[..b] == before;
    forall q | 0 <= q < at ensures !MatchAny(s, q) {
      NoneBefore(f, b, q);
    }
    FieldMatch(ls, 8, 5, 5, b);
    MisledRun(ls, f.uri, b, digits, c);
    assert FirstAny(s, at);
  }

  lemma MisledRun(ls: seq<string>, uri: string, b: nat, digits: string, c: char)
    requires |ls| > 5 && |ls[5]| >= 5 && ls[5][5..] == uri && b + 7 + |digits| < |uri|
    requires uri[b + 7..][..|digits|] == digits && uri[b + 7..][|digits|] == c
    requires HexDigits(digits) && !Hex(c)
    ensures var at := Start(ls, 5) + 5 + b; at + 7 <= |Join(ls)| && HexRun(Join(ls)[at + 7..]) == digits
  {
    LineSlice(ls, 5);
    var s, a, n := Join(ls), Start(ls, 5), |digits|;
    var at := a + 5 + b;
    SubSlice(s, a, ls[5], 12 + b, n + 1);
    SubSlice(ls[5], 5, uri, 7 + b, n + 1);
    assert uri[b + 7..][..n + 1] == uri[7 + b..8 + b + n] == digits + [c];
    var t := s[at + 7..];
    assert t[..n + 1] == s[a + 12 + b..a + 13 + b + n] == digits + [c];
    assert t[..n] == (digits + [c])[..n] == digits && t[n] == (digits + [c])[n];
    RunStops(t, n);
  }
}
