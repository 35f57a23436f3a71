/** How the response codes of the connectivity endpoints are turned into an internet status. */
module ResponseVote {
  import opened NetworkEvents

  function Meaning(code: int): InternetStatus {
    if code == 204 then INTERNET_FULLY_CONNECTED
    else if code == 200 then INTERNET_LIMITED
    else if code == 511 || code == 302 then INTERNET_CAPTIVE_PORTAL
    else INTERNET_NOT_AVAILABLE
  }

  function Count(responses: seq<int>, code: int): nat {
    multiset(responses)[code]
  }

  ghost predicate MostFrequent(responses: seq<int>, code: int) {
    code in responses && forall d :: d in responses ==> Count(responses, d) <= Count(responses, code)
  }

  /** The most frequent code, the first seen if there are several. */
  ghost predicate Winner(responses: seq<int>, code: int) {
    MostFrequent(responses, code) &&
    exists i :: 0 <= i < |responses| && responses[i] == code
                && forall j :: 0 <= j < i ==> !MostFrequent(responses, responses[j])
  }

  /** The verdict of the winner if it has at least half of the responses. */
  ghost predicate IsVerdict(responses: seq<int>, state: InternetStatus) {
    && (responses == [] ==> state == INTERNET_NOT_AVAILABLE)
    && forall w :: Winner(responses, w) ==>
         state == if 2 * Count(responses, w) >= |responses| then Meaning(w) else INTERNET_NOT_AVAILABLE
  }

  method CheckInternetStateFromResponseCode(responses: seq<int>) returns (state: InternetStatus)
    ensures IsVerdict(responses, state)
  {
    state := INTERNET_NOT_AVAILABLE;
    var httpResponseCode, maxCount := 99, 0;
    var i := 0;
    ghost var first := 0;
    while i < |responses|
      invariant 0 <= i <= |responses|
      invariant forall j :: 0 <= j < i ==> Count(responses, responses[j]) <= maxCount
      invariant i == 0 ==> maxCount == 0
      invariant i > 0 ==> 0 <= first < i && responses[first] == httpResponseCode
                          && maxCount == Count(responses, httpResponseCode) > 0
                          && forall j :: 0 <= j < first ==> Count(responses, responses[j]) < maxCount
    {
      var elementCount := Count(responses, responses[i]);
      assert responses[i] in multiset(responses);
      if elementCount > maxCount {
        httpResponseCode := responses[i];
        maxCount := elementCount;
        first := i;
      }
      i := i + 1;
    }
    if responses != [] {
      assert MostFrequent(responses, httpResponseCode);
      assert forall j :: 0 <= j < first ==> !MostFrequent(responses, responses[j]);
      forall w | Winner(responses, w) ensures w == httpResponseCode {
        WinnerUnique(responses, w, httpResponseCode);
      }
    }
    if responses != [] && 2 * maxCount >= |responses| {
      state := Meaning(httpResponseCode);
    }
  }

  lemma WinnerUnique(responses: seq<int>, a: int, b: int)
    requires Winner(responses, a) && Winner(responses, b)
    ensures a == b
  {
    var i :| 0 <= i < |responses| && responses[i] == a
             && forall j :: 0 <= j < i ==> !MostFrequent(responses, responses[j]);
    var k :| 0 <= k < |responses| && responses[k] == b
             && forall j :: 0 <= j < k ==> !MostFrequent(responses, responses[j]);
    assert !(i < k) && !(k < i);
  }

  lemma {:induction false} BestOf(responses: seq<int>, n: nat) returns (first: nat)
    requires 0 < n <= |responses|
    ensures first < n
    ensures forall j :: 0 <= j < n ==> Count(responses, responses[j]) <= Count(responses, responses[first])
    ensures forall j :: 0 <= j < first ==> Count(responses, responses[j]) < Count(responses, responses[first])
  {
    if n == 1 {
      first := 0;
    } else {
      first := BestOf(responses, n - 1);
      if Count(responses, responses[n - 1]) > Count(responses, responses[first]) {
        first := n - 1;
      }
    }
  }

  lemma WinnerExists(responses: seq<int>) returns (w: int)
    requires responses != []
    ensures Winner(responses, w)
  {
    var first := BestOf(responses, |responses|);
    w := responses[first];
    assert MostFrequent(responses, w);
    assert forall j :: 0 <= j < first ==> !MostFrequent(responses, responses[j]);
  }

  /** There is exactly one verdict. */
  lemma VerdictUnique(responses: seq<int>, s1: InternetStatus, s2: InternetStatus)
    requires IsVerdict(responses, s1) && IsVerdict(responses, s2)
    ensures s1 == s2
  {
    if responses != [] {
      var w := WinnerExists(responses);
    }
  }

  /** A code answered first among the most frequent, by at least half. */
  ghost predicate Carries(responses: seq<int>, code: int) {
    Winner(responses, code) && 2 * Count(responses, code) >= |responses|
  }

  /** What the codes stand for: 204 is full connection, 200 limited, 302 and 511 a captive portal, and anything else,
      or no majority, no internet. */
  lemma VerdictByCode(responses: seq<int>, state: InternetStatus)
    requires IsVerdict(responses, state)
    ensures state == INTERNET_FULLY_CONNECTED <==> Carries(responses, 204)
    ensures state == INTERNET_LIMITED <==> Carries(responses, 200)
    ensures state == INTERNET_CAPTIVE_PORTAL <==> Carries(responses, 302) || Carries(responses, 511)
    ensures state != INTERNET_UNKNOWN
  {
    if responses == [] {
      assert forall code :: !Winner(responses, code);
    } else {
      var w := WinnerExists(responses);
      forall v | Winner(responses, v) ensures v == w {
        WinnerUnique(responses, v, w);
      }
    }
  }

  /** When all endpoints answer alike, that is the verdict; a lone answer decides too. */
  lemma Unanimous(responses: seq<int>, code: int, state: InternetStatus)
    requires responses != [] && (forall i :: 0 <= i < |responses| ==> responses[i] == code)
    requires IsVerdict(responses, state)
    ensures state == if code == 204 then INTERNET_FULLY_CONNECTED else if code == 200 then INTERNET_LIMITED
                     else if code == 302 || code == 511 then INTERNET_CAPTIVE_PORTAL else INTERNET_NOT_AVAILABLE
  {
    AllAlike(responses, code);
    var w := WinnerExists(responses);
    assert w == code;
  }

  lemma {:induction false} AllAlike(responses: seq<int>, code: int)
    requires forall i :: 0 <= i < |responses| ==> responses[i] == code
    ensures Count(responses, code) == |responses|
  {
    if responses != [] {
      AllAlike(responses[1..], code);
      assert responses == [responses[0]] + responses[1..];
    }
  }

  lemma TwoCounts(m: multiset<int>, a: int, b: int)
    requires a != b
    ensures m[a] + m[b] <= |m|
  {
    var r := m[a := 0][b := 0];
    assert m == r[a := m[a]][b := m[b]];
    assert |m| == |r| + m[a] + m[b];
  }

  /** Two codes with different meanings hold exactly half of the responses each. */
  ghost predicate ContestedTie(responses: seq<int>) {
    responses != [] &&
    exists a, b :: Meaning(a) != Meaning(b) && 2 * Count(responses, a) == |responses| == 2 * Count(responses, b)
  }

  lemma PermutedFrequency(r1: seq<int>, r2: seq<int>, code: int)
    requires multiset(r1) == multiset(r2)
    ensures |r1| == |r2| && Count(r1, code) == Count(r2, code)
    ensures MostFrequent(r1, code) <==> MostFrequent(r2, code)
  {
    assert |multiset(r1)| == |r1| && |multiset(r2)| == |r2|;
    assert forall d :: d in r1 <==> d in multiset(r1);
    assert forall d :: d in r2 <==> d in multiset(r2);
  }

  lemma UncontestedVerdict(r1: seq<int>, r2: seq<int>, s1: InternetStatus, s2: InternetStatus)
    requires multiset(r1) == multiset(r2) && !ContestedTie(r1)
    requires IsVerdict(r1, s1) && IsVerdict(r2, s2)
    ensures s1 == s2
  {
    PermutedFrequency(r1, r2, 0);
    if r1 != [] {
      var w1 := WinnerExists(r1);
      var w2 := WinnerExists(r2);
      PermutedFrequency(r1, r2, w1);
      PermutedFrequency(r1, r2, w2);
      assert Count(r1, w1) == Count(r1, w2);
      if w1 != w2 {
        TwoCounts(multiset(r1), w1, w2);
      }
    }
  }

  /** The same responses with one occurrence of code moved to the front. */
  lemma ToFront(responses: seq<int>, code: int) returns (r: seq<int>)
    requires code in responses
    ensures multiset(r) == multiset(responses) && r[..1] == [code]
  {
    var i :| 0 <= i < |responses| && responses[i] == code;
    r := [code] + responses[..i] + responses[i + 1..];
    assert responses == responses[..i] + [code] + responses[i + 1..];
  }

  lemma HalfIsMost(responses: seq<int>, code: int)
    requires 2 * Count(responses, code) == |responses| && responses != []
    ensures MostFrequent(responses, code)
  {
    assert code in multiset(responses);
    forall d | d in responses ensures Count(responses, d) <= Count(responses, code) {
      if d != code {
        TwoCounts(multiset(responses), d, code);
      }
    }
  }

  /** The verdict depends on the order of the responses exactly if two codes with different meanings tie at half. */
  lemma OrderMattersIff(responses: seq<int>)
    ensures ContestedTie(responses) <==>
            exists r1, r2, s1, s2 :: multiset(r1) == multiset(responses) == multiset(r2)
                                     && IsVerdict(r1, s1) && IsVerdict(r2, s2) && s1 != s2
  {
    if ContestedTie(responses) {
      var a, b :| Meaning(a) != Meaning(b) && 2 * Count(responses, a) == |responses| == 2 * Count(responses, b);
      var s1, r1 := FrontVerdict(responses, a);
      var s2, r2 := FrontVerdict(responses, b);
      assert multiset(r1) == multiset(responses) == multiset(r2) && IsVerdict(r1, s1) && IsVerdict(r2, s2) && s1 != s2;
    }
    if exists r1, r2, s1, s2 :: multiset(r1) == multiset(responses) == multiset(r2)
                                && IsVerdict(r1, s1) && IsVerdict(r2, s2) && s1 != s2 {
      var r1, r2, s1, s2 :| multiset(r1) == multiset(responses) == multiset(r2)
                            && IsVerdict(r1, s1) && IsVerdict(r2, s2) && s1 != s2;
      if ContestedTie(r1) {
        PermutedTie(r1, responses);
      } else {
        UncontestedVerdict(r1, r2, s1, s2);
      }
    }
  }

  lemma PermutedTie(r1: seq<int>, r2: seq<int>)
    requires multiset(r1) == multiset(r2) && ContestedTie(r1)
    ensures ContestedTie(r2)
  {
    var a, b :| Meaning(a) != Meaning(b) && 2 * Count(r1, a) == |r1| == 2 * Count(r1, b) && r1 != [];
    PermutedFrequency(r1, r2, a);
    PermutedFrequency(r1, r2, b);
    assert r2 != [];
  }

  lemma FrontVerdict(responses: seq<int>, code: int) returns (state: InternetStatus, r: seq<int>)
    requires responses != [] && 2 * Count(responses, code) == |responses|
    ensures multiset(r) == multiset(responses) && IsVerdict(r, state) && state == Meaning(code)
  {
    HalfIsMost(responses, code);
    r := ToFront(responses, code);
    PermutedFrequency(r, responses, code);
    assert r[0] == r[..1][0] == code;
    state := Meaning(code);
    assert Winner(r, code);
    forall w | Winner(r, w) ensures w == code {
      WinnerUnique(r, w, code);
    }
  }
}
