/** The domain whitelist of src/whitelist.c. Texts are C strings: they hold no NUL. */
module Whitelists {
  import opened Options

  const NEWLINE := '\n'

  // The lines of a text as strtok finds them.

  /** Length of the first line of a text. */
  function LineLength(s: string): (n: nat)
    ensures n <= |s|
    ensures NEWLINE !in s[..n]
    ensures n < |s| ==> s[n] == NEWLINE
  {
    if s == "" || s[0] == NEWLINE then 0 else 1 + LineLength(s[1..])
  }

  /** The non-empty lines of a text, in order. */
  function Tokens(s: string): (ts: seq<string>)
    ensures forall i :: 0 <= i < |ts| ==> IsLine(ts[i])
    decreases |s|
  {
    if s == "" then []
    else if s[0] == NEWLINE then Tokens(s[1..])
    else [s[..LineLength(s)]] + Tokens(s[LineLength(s)..])
  }

  predicate IsLine(t: string) {
    t != "" && '\n' !in t
  }

  /** t is a maximal newline-free stretch of s, from i. */
  ghost predicate LineAt(s: string, t: string, i: nat) {
    && i + |t| <= |s| && s[i..i + |t|] == t
    && (i == 0 || s[i - 1] == '\n')
    && (i + |t| == |s| || s[i + |t|] == '\n')
  }

  lemma {:induction false} LineLengthOf(t: string, rest: string)
    requires NEWLINE !in t && (rest == "" || rest[0] == NEWLINE)
    ensures LineLength(t + rest) == |t|
    decreases |t|
  {
    if t != "" {
      assert (t + rest)[1..] == t[1..] + rest;
      LineLengthOf(t[1..], rest);
    }
  }

  lemma TokensOfLine(t: string, rest: string)
    requires IsLine(t) && (rest == "" || rest[0] == NEWLINE)
    ensures Tokens(t + rest) == [t] + Tokens(rest)
  {
    LineLengthOf(t, rest);
    assert (t + rest)[..|t|] == t && (t + rest)[|t|..] == rest;
    assert (t + rest)[0] == t[0];
  }

  lemma TokensSkip(s: string)
    requires s != "" && s[0] == NEWLINE
    ensures Tokens(s) == Tokens(s[1..])
  {
  }

  lemma TokensOfStretch(s: string, i: nat, j: nat)
    requires i < j <= |s| && IsLine(s[i..j]) && (j == |s| || s[j] == NEWLINE)
    ensures Tokens(s[i..]) == [s[i..j]] + Tokens(s[if j < |s| then j + 1 else j..])
  {
    var t, rest := s[i..j], s[j..];
    assert s[i..] == t + rest;
    TokensOfLine(t, rest);
    if j < |s| {
      TokensSkip(rest);
      assert rest[1..] == s[j + 1..];
    }
  }

  lemma NoTokens(s: string)
    ensures Tokens(s[|s|..]) == []
  {
  }

  /** Where the text goes on after its first line or newline. */
  function AfterFirst(s: string): (n: nat)
    requires s != ""
    ensures 0 < n <= |s|
  {
    if s[0] == NEWLINE then 1 else LineLength(s)
  }

  lemma TailLine(s: string, t: string, i: nat)
    requires s != "" && IsLine(t) && LineAt(s[AfterFirst(s)..], t, i)
    ensures LineAt(s, t, AfterFirst(s) + i)
  {
    var n := AfterFirst(s);
    assert s[n + i..n + i + |t|] == s[n..][i..i + |t|];
    assert i == 0 ==> s[n..][0] == t[0];
  }

  lemma LaterLine(s: string, t: string, i: nat)
    requires s != "" && IsLine(t) && LineAt(s, t, i) && i > 0
    ensures i >= AfterFirst(s) && LineAt(s[AfterFirst(s)..], t, i - AfterFirst(s))
  {
    var n := AfterFirst(s);
    assert s[i - 1] == NEWLINE;
    assert s[0] != NEWLINE ==> forall k :: 0 <= k < n ==> s[..n][k] == s[k];
    assert s[n..][i - n..i - n + |t|] == s[i..i + |t|];
  }

  lemma LineIsNotNewline(s: string, t: string, i: nat)
    requires IsLine(t) && LineAt(s, t, i)
    ensures i < |s| && s[i] != NEWLINE
  {
    assert s[i] == t[0];
  }

  lemma FirstIsLine(s: string)
    requires s != "" && s[0] != NEWLINE
    ensures LineAt(s, s[..LineLength(s)], 0)
  {
  }

  /** Each of ts is the line at its start, and the starts are in order. */
  ghost predicate InPlace(s: string, ts: seq<string>, starts: seq<nat>) {
    && |starts| == |ts|
    && (forall k, l :: 0 <= k < l < |starts| ==> starts[k] < starts[l])
    && (forall k :: 0 <= k < |ts| ==> IsLine(ts[k]) && LineAt(s, ts[k], starts[k]))
  }

  ghost predicate Complete(s: string, starts: seq<nat>) {
    forall t, i :: IsLine(t) && LineAt(s, t, i) ==> i in starts
  }

  /** ts are the lines of s in order: each is the line at its start, and every start of a line
      occurs, once. */
  ghost predicate LinesFrom(s: string, ts: seq<string>, starts: seq<nat>) {
    InPlace(s, ts, starts) && Complete(s, starts)
  }

  function Shifted(starts: seq<nat>, n: nat): (r: seq<nat>)
    ensures |r| == |starts| && forall k :: 0 <= k < |starts| ==> r[k] == starts[k] + n
  {
    seq(|starts|, k requires 0 <= k < |starts| => starts[k] + n)
  }

  lemma TailInPlace(s: string, ts: seq<string>, later: seq<nat>)
    requires s != "" && InPlace(s[AfterFirst(s)..], ts, later)
    ensures InPlace(s, ts, Shifted(later, AfterFirst(s)))
  {
    hide LineAt, IsLine, AfterFirst;
    var n := AfterFirst(s);
    forall k | 0 <= k < |ts| ensures LineAt(s, ts[k], Shifted(later, n)[k]) {
      TailLine(s, ts[k], later[k]);
    }
  }

  lemma InShifted(starts: seq<nat>, n: nat, i: nat)
    requires i >= n && i - n in starts
    ensures i in Shifted(starts, n)
  {
    var k :| 0 <= k < |starts| && starts[k] == i - n;
    assert Shifted(starts, n)[k] == i;
  }

  lemma TailComplete(s: string, later: seq<nat>)
    requires s != "" && Complete(s[AfterFirst(s)..], later)
    ensures Complete(s, if s[0] == NEWLINE then Shifted(later, AfterFirst(s)) else [0] + Shifted(later, AfterFirst(s)))
  {
    hide LineAt, IsLine, AfterFirst;
    forall t, i | IsLine(t) && LineAt(s, t, i)
      ensures if i > 0 then i in Shifted(later, AfterFirst(s)) else s[0] != NEWLINE
    {
      LineIsNotNewline(s, t, i);
      if i > 0 {
        LaterLine(s, t, i);
        InShifted(later, AfterFirst(s), i);
      }
    }
    assert ([0] + Shifted(later, AfterFirst(s)))[0] == 0;
  }

  lemma Prepended(s: string, first: string, ts: seq<string>, starts: seq<nat>)
    requires IsLine(first) && LineAt(s, first, 0) && InPlace(s, ts, starts)
    requires forall k :: 0 <= k < |starts| ==> starts[k] > 0
    ensures InPlace(s, [first] + ts, [0] + starts)
  {
    hide LineAt, IsLine;
  }

  lemma {:induction false} TokensFrom(s: string) returns (starts: seq<nat>)
    ensures LinesFrom(s, Tokens(s), starts)
    decreases |s|
  {
    if s == "" {
      starts := [];
    } else {
      var n, rest := AfterFirst(s), Tokens(s[AfterFirst(s)..]);
      assert Tokens(s) == if s[0] == NEWLINE then rest else [s[..n]] + rest;
      assert s[0] != NEWLINE ==> IsLine(s[..n]) && LineAt(s, s[..n], 0) by {
        if s[0] != NEWLINE {
          FirstIsLine(s);
        }
      }
      hide InPlace, Complete, AfterFirst, LineAt, IsLine, Tokens;
      var later := TokensFrom(s[AfterFirst(s)..]);
      TailInPlace(s, rest, later);
      TailComplete(s, later);
      starts := Shifted(later, n);
      if s[0] != NEWLINE {
        Prepended(s, s[..n], rest, starts);
        starts := [0] + starts;
      }
    }
  }

  lemma NotLonger(s: string, t: string, u: string, i: nat)
    requires IsLine(t) && IsLine(u) && LineAt(s, t, i) && LineAt(s, u, i)
    ensures |u| <= |t|
  {
    assert forall k :: i <= k < i + |u| ==> s[k] == s[i..i + |u|][k - i];
  }

  lemma LineIsUnique(s: string, t: string, u: string, i: nat)
    requires IsLine(t) && IsLine(u) && LineAt(s, t, i) && LineAt(s, u, i)
    ensures t == u
  {
    NotLonger(s, t, u, i);
    NotLonger(s, u, t, i);
  }

  lemma {:induction false} SameStart(
    s: string, ts: seq<string>, starts: seq<nat>, us: seq<string>, starts1: seq<nat>, k: nat)
    requires LinesFrom(s, ts, starts) && LinesFrom(s, us, starts1) && k < |starts|
    ensures k < |starts1| && starts1[k] == starts[k]
  {
    hide LineAt;
    forall l: nat | l < k ensures l < |starts1| && starts1[l] == starts[l] {
      SameStart(s, ts, starts, us, starts1, l);
    }
    assert LineAt(s, ts[k], starts[k]);
    var m :| 0 <= m < |starts1| && starts1[m] == starts[k];
    assert m >= k;
    assert LineAt(s, us[k], starts1[k]);
    var l :| 0 <= l < |starts| && starts[l] == starts1[k];
    assert l >= k;
  }

  lemma NotFewer(s: string, ts: seq<string>, starts: seq<nat>, us: seq<string>, starts1: seq<nat>)
    requires LinesFrom(s, ts, starts) && LinesFrom(s, us, starts1)
    ensures |starts| <= |starts1|
  {
    if |starts| > 0 {
      SameStart(s, ts, starts, us, starts1, |starts| - 1);
    }
  }

  /** The tokens of a text are exactly its maximal non-empty stretches without newlines, in order
      and each as often as it occurs: they and no other list. */
  lemma TokensAreLines(s: string, ts: seq<string>)
    ensures ts == Tokens(s) <==> exists starts :: LinesFrom(s, ts, starts)
  {
    var starts := TokensFrom(s);
    if exists starts1 :: LinesFrom(s, ts, starts1) {
      hide LineAt;
      var starts1 :| LinesFrom(s, ts, starts1);
      NotFewer(s, ts, starts1, Tokens(s), starts);
      NotFewer(s, Tokens(s), starts, ts, starts1);
      forall k | 0 <= k < |ts| ensures ts[k] == Tokens(s)[k] {
        SameStart(s, ts, starts1, Tokens(s), starts, k);
        LineIsUnique(s, ts[k], Tokens(s)[k], starts[k]);
      }
    }
  }

  // Writing the whitelist and reading it back.

  /** The whitelist section of an update: one domain a line and an empty line. */
  function Printed(domains: seq<string>): string {
    if domains == [] then [NEWLINE] else domains[0] + [NEWLINE] + Printed(domains[1..])
  }

  lemma PrintedFrom(domains: seq<string>)
    ensures Printed(domains) == if domains == [] then [NEWLINE] else domains[0] + [NEWLINE] + Printed(domains[1..])
  {
  }

  lemma {:induction false} TokensOfPrinted(domains: seq<string>)
    requires forall i :: 0 <= i < |domains| ==> IsLine(domains[i])
    ensures Tokens(Printed(domains)) == domains
  {
    if domains == [] {
      TokensSkip(Printed(domains));
    } else {
      var rest := [NEWLINE] + Printed(domains[1..]);
      assert Printed(domains) == domains[0] + rest;
      TokensOfLine(domains[0], rest);
      TokensSkip(rest);
      assert rest[1..] == Printed(domains[1..]);
      TokensOfPrinted(domains[1..]);
    }
  }

  /** Loading what an update lists gives back the whitelist the update was written from. */
  lemma LoadPrintLoad(s: string)
    ensures Tokens(Printed(Tokens(s))) == Tokens(s)
  {
    TokensOfPrinted(Tokens(s));
  }

  /** strtok on a private copy of the text. */
  class Tokenizer {
    const buffer: string
    var position: nat

    constructor (contents: string)
      ensures buffer == contents && position == 0
    {
      buffer := contents;
      position := 0;
    }

    method Next() returns (token: Option<string>)
      requires position <= |buffer|
      modifies this
      ensures position <= |buffer|
      ensures match token
              case None => Tokens(buffer[old(position)..]) == []
              case Some(t) => Tokens(buffer[old(position)..]) == [t] + Tokens(buffer[position..])
    {
      hide Tokens;
      var i := position;
      while i < |buffer| && buffer[i] == NEWLINE
        invariant position == old(position) <= i <= |buffer|
        invariant Tokens(buffer[position..]) == Tokens(buffer[i..])
      {
        assert buffer[i..][0] == NEWLINE && buffer[i..][1..] == buffer[i + 1..];
        TokensSkip(buffer[i..]);
        i := i + 1;
      }
      if i == |buffer| {
        NoTokens(buffer);
        position := i;
        return None;
      }
      var start := i;
      assert Tokens(buffer[position..]) == Tokens(buffer[start..]);
      while i < |buffer| && buffer[i] != NEWLINE
        invariant position == old(position) && start <= i <= |buffer|
        invariant NEWLINE !in buffer[start..i]
        invariant i == start ==> buffer[i] != NEWLINE
      {
        i := i + 1;
      }
      var next := if i < |buffer| then i + 1 else i;
      TokensOfStretch(buffer, start, i);
      assert Tokens(buffer[position..]) == [buffer[start..i]] + Tokens(buffer[next..]);
      position := next;
      return Some(buffer[start..i]);
    }
  }

  // Looking up a name.

  predicate EndsWith(s: string, suffix: string) {
    |suffix| <= |s| && s[|s| - |suffix|..] == suffix
  }

  /** The domain itself or a subdomain of it. */
  predicate Covers(domain: string, name: string) {
    name == domain || EndsWith(name, "." + domain)
  }

  lemma CoversBySuffix(domain: string, name: string)
    requires |domain| <= |name|
    ensures var k := |name| - |domain|;
            Covers(domain, name) <==> name[k..] == domain && (k == 0 || name[k - 1] == '.')
  {
  }

  class Whitelist {
    var domains: array<string>
    var size: nat

    ghost predicate Valid()
      reads this
    {
      size == domains.Length
    }

    constructor ()
      ensures Valid() && domains[..] == [] && fresh(domains)
    {
      domains := new string[0];
      size := 0;
    }

    /** Counts the lines in one pass and stores them in a second. */
    method Load(contents: string)
      modifies this
      ensures Valid() && fresh(domains) && domains[..] == Tokens(contents)
    {
      hide Tokens;
      var counter := new Tokenizer(contents);
      var numLines := 0;
      assert contents[0..] == contents;
      var token := counter.Next();
      while token.Some?
        invariant counter.buffer == contents && counter.position <= |contents| && fresh(counter)
        invariant match token
                  case None => |Tokens(contents)| == numLines
                  case Some(_) => |Tokens(contents)| == numLines + 1 + |Tokens(contents[counter.position..])|
        decreases |Tokens(contents)| - numLines
      {
        numLines := numLines + 1;
        token := counter.Next();
      }
      size := numLines;
      domains := new string[numLines](_ => "");

      var reader := new Tokenizer(contents);
      for idx := 0 to numLines
        invariant Valid() && fresh(domains) && domains.Length == numLines == |Tokens(contents)|
        invariant reader.buffer == contents && reader.position <= |contents| && fresh(reader)
        invariant reader as object != domains
        invariant Tokens(contents) == domains[..idx] + Tokens(contents[reader.position..])
      {
        var line := reader.Next();
        assert line.Some?;
        domains[idx] := line.value;
      }
    }

    /** 0 if the name is on the whitelist and -1 if it is not. */
    method Lookup(name: string) returns (rc: int)
      requires Valid()
      ensures rc == 0 || rc == -1
      ensures rc == 0 <==> exists i :: 0 <= i < domains.Length && Covers(domains[i], name)
    {
      for idx := 0 to size
        invariant forall i :: 0 <= i < idx ==> !Covers(domains[i], name)
      {
        var offset := |name| - |domains[idx]|;
        if offset >= 0 {
          CoversBySuffix(domains[idx], name);
          if name[offset..] == domains[idx] && (offset == 0 || name[offset - 1] == '.') {
            return 0;
          }
        }
      }
      return -1;
    }

    method WriteUpdate() returns (text: string)
      requires Valid()
      ensures text == Printed(domains[..])
    {
      hide Printed;
      assert domains[0..] == domains[..];
      text := "";
      for idx := 0 to size
        invariant text + Printed(domains[idx..]) == Printed(domains[..])
      {
        assert domains[idx..][0] == domains[idx] && domains[idx..][1..] == domains[idx + 1..];
        PrintedFrom(domains[idx..]);
        text := text + domains[idx] + [NEWLINE];
      }
      PrintedFrom(domains[size..]);
      text := text + [NEWLINE];
    }
  }

  /** Loading what another whitelist wrote makes a copy of it. */
  method CopyThroughUpdate(contents: string) returns (first: seq<string>, second: seq<string>)
    ensures first == second == Tokens(contents)
  {
    var original := new Whitelist();
    original.Load(contents);
    var text := original.WriteUpdate();
    first := original.domains[..];
    var copy := new Whitelist();
    copy.Load(text);
    second := copy.domains[..];
    LoadPrintLoad(contents);
  }
}
