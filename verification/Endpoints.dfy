/** The connectivity endpoints and their cache file: one endpoint per line. */
module Endpoints {
  import opened Sequences
  import opened Wrappers

  const NEWLINE := '\n'
  const NUL := '\0'

  // ---------------------------------------------------------------------------
  // Lines
  // ---------------------------------------------------------------------------

  /** The position of the first c, or the length. */
  function IndexOf(s: string, c: char): (i: nat)
    ensures i <= |s| && c !in s[..i] && (i < |s| ==> s[i] == c)
  {
    if s == [] || s[0] == c then 0 else 1 + IndexOf(s[1..], c)
  }

  lemma {:induction false} IndexIs(s: string, c: char, k: nat)
    requires k <= |s| && c !in s[..k] && (k < |s| ==> s[k] == c)
    ensures IndexOf(s, c) == k
  {
    if k > 0 {
      assert s[0] == s[..k][0];
      assert s[1..][..k - 1] == s[..k][1..];
      IndexIs(s[1..], c, k - 1);
    }
  }

  /** What is left of a string after its first line. */
  function AfterLine(s: string): string {
    var i := IndexOf(s, NEWLINE);
    if i < |s| then s[i + 1..] else []
  }

  /** std::getline until it fails: a last line without a newline counts, an empty rest does not. */
  function Lines(s: string): seq<string>
    decreases |s|
  {
    if s == [] then [] else [s[..IndexOf(s, NEWLINE)]] + Lines(AfterLine(s))
  }

  function Written(endpoints: seq<string>): string {
    if endpoints == [] then [] else endpoints[0] + [NEWLINE] + Written(endpoints[1..])
  }

  lemma WrittenOneMore(out: string, l: seq<string>)
    requires l != []
    ensures out + Written(l) == (out + l[0] + [NEWLINE]) + Written(l[1..])
  {
    Associative(out, l[0] + [NEWLINE], Written(l[1..]));
    Associative(out, l[0], [NEWLINE]);
  }

  predicate OneLine(s: string) {
    NEWLINE !in s
  }

  predicate AllOneLine(l: seq<string>) {
    forall i :: 0 <= i < |l| ==> OneLine(l[i])
  }

  lemma {:induction false} LinesUndoWritten(l: seq<string>)
    requires AllOneLine(l)
    ensures Lines(Written(l)) == l
  {
    if l != [] {
      var s := Written(l);
      var k := |l[0]|;
      assert s[k] == NEWLINE && s[..k] == l[0];
      IndexIs(s, NEWLINE, k);
      assert AfterLine(s) == Written(l[1..]);
      LinesUndoWritten(l[1..]);
      assert l == [l[0]] + l[1..];
    }
  }

  lemma {:induction false} LinesAreOneLine(s: string)
    ensures AllOneLine(Lines(s))
    decreases |s|
  {
    if s != [] {
      LinesAreOneLine(AfterLine(s));
    }
  }

  // ---------------------------------------------------------------------------
  // Filtering
  // ---------------------------------------------------------------------------

  predicate LongEnough(s: string) {
    s != "" && |s| > 3
  }

  function Filtered(l: seq<string>): (r: seq<string>)
    ensures forall e :: e in r ==> e in l && LongEnough(e)
    ensures |r| <= |l|
  {
    if l == [] then [] else (if LongEnough(l[0]) then [l[0]] else []) + Filtered(l[1..])
  }

  /** Storing through c_str() cuts an endpoint at its first NUL. */
  function CString(s: string): string {
    s[..IndexOf(s, NUL)]
  }

  function Kept(l: seq<string>): seq<string> {
    if l == [] then [] else (if LongEnough(l[0]) then [CString(l[0])] else []) + Kept(l[1..])
  }

  predicate AllLongEnough(l: seq<string>) {
    forall i :: 0 <= i < |l| ==> LongEnough(l[i])
  }

  predicate NoNul(l: seq<string>) {
    forall i :: 0 <= i < |l| ==> NUL !in l[i]
  }

  lemma {:induction false} FilteredAll(l: seq<string>)
    requires AllLongEnough(l)
    ensures Filtered(l) == l
  {
    if l != [] {
      FilteredAll(l[1..]);
      assert l == [l[0]] + l[1..];
    }
  }

  lemma {:induction false} KeptClean(l: seq<string>)
    requires NoNul(l)
    ensures Kept(l) == Filtered(l)
  {
    if l != [] {
      assert l[0][..|l[0]|] == l[0];
      IndexIs(l[0], NUL, |l[0]|);
      KeptClean(l[1..]);
    }
  }

  lemma {:induction false} FilteredShape(l: seq<string>)
    ensures AllLongEnough(Filtered(l))
    ensures NoNul(l) ==> NoNul(Filtered(l))
    ensures AllOneLine(l) ==> AllOneLine(Filtered(l))
  {
    if l != [] {
      FilteredShape(l[1..]);
      assert forall i :: 0 <= i < |l[1..]| ==> l[1..][i] == l[i + 1];
    }
  }

  /** The filter is idempotent. */
  lemma FilterIdempotent(l: seq<string>)
    ensures Filtered(Filtered(l)) == Filtered(l)
  {
    FilteredShape(l);
    FilteredAll(Filtered(l));
  }

  lemma {:induction false} KeptHasNoNul(l: seq<string>)
    ensures NoNul(Kept(l))
  {
    if l != [] {
      KeptHasNoNul(l[1..]);
    }
  }

  /** How many of the first j entries are longer than three characters. */
  function LongBefore(l: seq<string>, j: nat): nat
    requires j <= |l|
  {
    if j == 0 then 0 else LongBefore(l, j - 1) + (if |l[j - 1]| > 3 then 1 else 0)
  }

  lemma {:induction false} LongBeforeFirst(l: seq<string>, j: nat)
    requires 0 < j <= |l|
    ensures LongBefore(l, j) == (if |l[0]| > 3 then 1 else 0) + LongBefore(l[1..], j - 1)
    decreases j
  {
    if j > 1 {
      LongBeforeFirst(l, j - 1);
      assert l[1..][j - 2] == l[j - 1];
    }
  }

  /** What storing through c_str() leaves of a text: its characters before the first NUL. */
  predicate CutAtNul(cut: string, text: string) {
    cut <= text && '\0' !in cut && (|cut| < |text| ==> text[|cut|] == '\0')
  }

  /** What is stored of a list: its entries longer than three characters, all of them and no others, in order, each up
      to its first NUL. */
  lemma {:induction false} StoredEntries(l: seq<string>, j: nat)
    requires j <= |l|
    ensures |Kept(l)| == LongBefore(l, |l|)
    ensures j < |l| && |l[j]| > 3 ==>
              LongBefore(l, j) < |Kept(l)| && CutAtNul(Kept(l)[LongBefore(l, j)], l[j])
  {
    if l != [] {
      var own := OwnEntry(l);
      LongBeforeFirst(l, |l|);
      if j > 0 {
        StoredEntries(l[1..], j - 1);
        LongBeforeFirst(l, j);
        assert j < |l| ==> l[1..][j - 1] == l[j];
      } else {
        StoredEntries(l[1..], 0);
      }
    }
  }

  lemma OwnEntry(l: seq<string>) returns (own: seq<string>)
    requires l != []
    ensures Kept(l) == own + Kept(l[1..])
    ensures |own| == (if |l[0]| > 3 then 1 else 0) && (own != [] ==> CutAtNul(own[0], l[0]))
  {
    own := if LongEnough(l[0]) then [CString(l[0])] else [];
  }

  /** And what is kept of the lines of the file, whole. */
  lemma {:induction false} KeptLines(l: seq<string>, j: nat)
    requires j <= |l|
    ensures |Filtered(l)| == LongBefore(l, |l|)
    ensures j < |l| && |l[j]| > 3 ==> LongBefore(l, j) < |Filtered(l)| && Filtered(l)[LongBefore(l, j)] == l[j]
  {
    if l != [] {
      var own := OwnLine(l);
      LongBeforeFirst(l, |l|);
      if j > 0 {
        KeptLines(l[1..], j - 1);
        LongBeforeFirst(l, j);
        assert j < |l| ==> l[1..][j - 1] == l[j];
      } else {
        KeptLines(l[1..], 0);
      }
    }
  }

  lemma OwnLine(l: seq<string>) returns (own: seq<string>)
    requires l != []
    ensures Filtered(l) == own + Filtered(l[1..]) && own == if |l[0]| > 3 then [l[0]] else []
  {
    own := if LongEnough(l[0]) then [l[0]] else [];
  }

  /** One line per endpoint, each ended by a line feed. */
  lemma {:induction false} FileText(l: seq<string>, i: nat)
    requires i < |l|
    ensures Written(l) == Written(l[..i]) + l[i] + ['\n'] + Written(l[i + 1..])
  {
    if i > 0 {
      FileText(l[1..], i - 1);
      assert l[1..][..i - 1] == l[..i][1..];
      assert l[1..][i..] == l[i + 1..];
      assert Written(l[..i]) == l[0] + [NEWLINE] + Written(l[..i][1..]);
      Associative(l[0] + [NEWLINE], Written(l[..i][1..]), l[i]);
      Associative(l[0] + [NEWLINE], Written(l[..i][1..]) + l[i], ['\n']);
      Associative(l[0] + [NEWLINE], Written(l[..i][1..]) + l[i] + ['\n'], Written(l[i + 1..]));
    } else {
      assert l[..0] == [];
      assert [] + l[0] == l[0];
    }
  }

  // ---------------------------------------------------------------------------
  // Sets and restarts
  // ---------------------------------------------------------------------------

  /** The endpoints in memory and the content of the cache file, if there is one. */
  datatype State = State(held: seq<string>, file: Option<string>)

  /** The file is left alone if it cannot be opened for writing. */
  function SetStep(s: State, endpoints: seq<string>, writable: bool): State {
    if endpoints == [] then s else State(Kept(endpoints), if writable then Some(Written(Kept(endpoints))) else s.file)
  }

  /** A new EndpointManager over whatever the file holds. */
  function Load(file: Option<string>, writable: bool): State {
    if file.None? then State([], file) else SetStep(State([], file), Filtered(Lines(file.value)), writable)
  }

  /** What a start loads does not depend on whether it can write it back. */
  lemma LoadsTheSame(file: Option<string>, w1: bool, w2: bool)
    ensures Load(file, w1).held == Load(file, w2).held
  {
  }

  /** For a list without NULs, loading undoes writing exactly if every entry is longer than three characters and
      contains no newline. */
  lemma ReloadIff(l: seq<string>)
    requires NoNul(l)
    ensures Load(Some(Written(l)), true).held == l <==> AllLongEnough(l) && AllOneLine(l)
  {
    var lines := Lines(Written(l));
    if AllLongEnough(l) && AllOneLine(l) {
      LinesUndoWritten(l);
      FilteredAll(l);
      KeptClean(l);
    }
    if Load(Some(Written(l)), true).held == l {
      LinesAreOneLine(Written(l));
      WrittenHasNoNul(l);
      LinesHaveNoNul(Written(l));
      FilteredShape(lines);
      KeptClean(Filtered(lines));
      FilterIdempotent(lines);
    }
  }

  lemma {:induction false} WrittenHasNoNul(l: seq<string>)
    requires NoNul(l)
    ensures NUL !in Written(l)
  {
    if l != [] {
      WrittenHasNoNul(l[1..]);
    }
  }

  lemma {:induction false} LinesHaveNoNul(s: string)
    requires NUL !in s
    ensures NoNul(Lines(s))
    decreases |s|
  {
    if s != [] {
      LinesHaveNoNul(AfterLine(s));
    }
  }

  lemma FilteredLine(loaded: seq<string>, rest: string)
    requires rest != []
    ensures var line := rest[..IndexOf(rest, NEWLINE)];
            loaded + Filtered(Lines(rest))
            == (if LongEnough(line) then loaded + [line] else loaded) + Filtered(Lines(AfterLine(rest)))
  {
    var line := rest[..IndexOf(rest, NEWLINE)];
    assert Lines(rest)[1..] == Lines(AfterLine(rest));
    Associative(loaded, if LongEnough(line) then [line] else [], Filtered(Lines(AfterLine(rest))));
    assert loaded + [] == loaded;
  }

  /** After any nonempty list was set, a restart gives the same list exactly if the list reached the file and every
      stored endpoint is longer than three characters and contains no newline, or the file says the same anyway. */
  lemma RestartAfterSetIff(s: State, l: seq<string>, writable: bool, w: bool)
    requires l != []
    ensures var t := SetStep(s, l, writable);
            Load(t.file, w).held == t.held <==>
              if writable then AllLongEnough(Kept(l)) && AllOneLine(Kept(l)) else Load(s.file, w).held == Kept(l)
  {
    if writable {
      KeptHasNoNul(l);
      ReloadIff(Kept(l));
      LoadsTheSame(Some(Written(Kept(l))), true, w);
    }
  }

  datatype Action = Set(endpoints: seq<string>, writable: bool) | Restart(writable: bool)

  function Step(s: State, a: Action): State {
    match a
    case Set(l, w) => SetStep(s, l, w)
    case Restart(w) => Load(s.file, w)
  }

  function Final(s: State, acts: seq<Action>): State
    decreases |acts|
  {
    if acts == [] then s else Final(Step(s, acts[0]), acts[1..])
  }

  /** No endpoint holds a newline or a NUL, and every list that is set reaches the file. */
  predicate CleanInputs(acts: seq<Action>) {
    forall i :: 0 <= i < |acts| && acts[i].Set? ==>
                  NoNul(acts[i].endpoints) && AllOneLine(acts[i].endpoints) && acts[i].writable
  }

  /** A restart now would change nothing. */
  predicate Stable(s: State) {
    (s.file.None? ==> s.held == []) && (s.file.Some? ==> NUL !in s.file.value && Load(s.file, true).held == s.held)
  }

  lemma SetStable(s: State, l: seq<string>)
    requires Stable(s) && NoNul(l) && AllOneLine(l)
    ensures Stable(SetStep(s, l, true))
  {
    KeptClean(l);
    FilteredShape(l);
    ReloadIff(Kept(l));
    WrittenHasNoNul(Kept(l));
  }

  lemma LoadStable(file: Option<string>, writable: bool)
    requires file.Some? ==> NUL !in file.value
    ensures Stable(Load(file, writable))
  {
    if file.Some? {
      var lines := Lines(file.value);
      LinesHaveNoNul(file.value);
      LinesAreOneLine(file.value);
      FilteredShape(lines);
      FilterIdempotent(lines);
      KeptClean(Filtered(lines));
      if Filtered(lines) != [] {
        ReloadIff(Filtered(lines));
        WrittenHasNoNul(Filtered(lines));
      }
    }
  }

  /** Over any run of sets and restarts from any NUL-free file, for endpoints without newline or NUL, a freshly built
      EndpointManager loads exactly the list held before. */
  lemma {:induction false} RestartKeepsEndpoints(s: State, acts: seq<Action>, writable: bool)
    requires Stable(s) && CleanInputs(acts)
    ensures Stable(Final(s, acts)) && Step(Final(s, acts), Restart(writable)).held == Final(s, acts).held
    decreases |acts|
  {
    if acts != [] {
      assert CleanInputs(acts[1..]) by {
        assert forall i :: 0 <= i < |acts[1..]| ==> acts[1..][i] == acts[i + 1];
      }
      match acts[0] {
        case Set(l, _) => SetStable(s, l);
        case Restart(w) => LoadStable(s.file, w);
      }
      RestartKeepsEndpoints(Step(s, acts[0]), acts[1..], writable);
    } else {
      LoadsTheSame(s.file, true, writable);
    }
  }

  /** A NUL can cost an endpoint: the length is checked before the cut, so a short remainder is stored and then filtered
      out by the next start. */
  lemma NulLosesEndpoint()
    ensures Final(State([], None), [Set(["ab\0cd"], true)]).held == ["ab"]
    ensures Step(Final(State([], None), [Set(["ab\0cd"], true)]), Restart(true)).held == []
  {
    var s: string := "ab\0cd";
    assert s[0] != NUL && s[1] != NUL && s[2] == NUL;
    IndexIs(s, NUL, 2);
    assert CString(s) == "ab";
    assert Kept([s]) == ["ab"] by {
      assert [s][1..] == [];
    }
    var t := SetStep(State([], None), [s], true);
    assert Final(State([], None), [Set([s], true)]) == Final(t, []) == t by {
      assert [Set([s], true)][1..] == [];
    }
    assert ["ab"][1..] == [];
    assert AllOneLine(["ab"]);
    LinesUndoWritten(["ab"]);
    assert Filtered(["ab"]) == [];
  }

  // ---------------------------------------------------------------------------
  // The object and its file
  // ---------------------------------------------------------------------------

  class CacheFile {
    var content: Option<string>
    /** Whether it can be opened for writing at the moment. */
    var writable: bool

    constructor (content: Option<string>, writable: bool)
      ensures this.content == content && this.writable == writable
    {
      this.content, this.writable := content, writable;
    }
  }

  class EndpointManager {
    const file: CacheFile
    var endpoints: seq<string>

    ghost function Abs(): State
      reads this, file
    {
      State(endpoints, file.content)
    }

    constructor (file: CacheFile)
      modifies file`content
      ensures this.file == file && Abs() == Load(old(file.content), file.writable)
    {
      this.file := file;
      endpoints := [];
      new;
      if file.content.Some? {
        var loaded := ReadFiltered(file.content.value);
        SetConnectivityMonitorEndpoints(loaded);
      }
    }

    static method ReadFiltered(content: string) returns (loaded: seq<string>)
      ensures loaded == Filtered(Lines(content))
    {
      loaded := [];
      var rest := content;
      while rest != []
        invariant loaded + Filtered(Lines(rest)) == Filtered(Lines(content))
        decreases |rest|
      {
        var line := rest[..IndexOf(rest, NEWLINE)];
        FilteredLine(loaded, rest);
        if line != "" && |line| > 3 {
          loaded := loaded + [line];
        }
        rest := AfterLine(rest);
      }
      assert loaded + [] == loaded;
    }

    method WriteEndpointsToFile(l: seq<string>)
      modifies file`content
      ensures file.content == if file.writable then Some(Written(l)) else old(file.content)
    {
      if !file.writable {
        return;
      }
      var out: string := [];
      var i := 0;
      while i < |l|
        invariant 0 <= i <= |l|
        invariant out + Written(l[i..]) == Written(l)
      {
        WrittenOneMore(out, l[i..]);
        assert l[i..][1..] == l[i + 1..];
        out := out + l[i] + [NEWLINE];
        i := i + 1;
      }
      assert out + [] == out;
      file.content := Some(out);
    }

    method SetConnectivityMonitorEndpoints(l: seq<string>)
      modifies this, file`content
      ensures Abs() == SetStep(old(Abs()), l, file.writable)
    {
      if l == [] {
        return;
      }
      endpoints := [];
      var i := 0;
      while i < |l|
        invariant 0 <= i <= |l|
        invariant endpoints + Kept(l[i..]) == Kept(l)
        invariant file.content == old(file.content)
        modifies this
      {
        assert l[i..][1..] == l[i + 1..];
        if l[i] != "" && |l[i]| > 3 {
          assert endpoints + Kept(l[i..]) == (endpoints + [CString(l[i])]) + Kept(l[i + 1..]);
          endpoints := endpoints + [CString(l[i])];
        } else {
          assert Kept(l[i..]) == Kept(l[i + 1..]);
        }
        i := i + 1;
      }
      assert endpoints + [] == endpoints;
      WriteEndpointsToFile(endpoints);
    }

    method GetConnectivityMonitorEndpoints() returns (l: seq<string>)
      ensures l == endpoints
    {
      l := endpoints;
    }
  }
}
