/** The annotation in which the GPU sharing layer records what a pod holds: records of
    `uuid,vendor,memory,cores` ended by colons, with semicolons between containers. */
module AllocationText {
  import opened CellTypes
  import opened Decimal
  import Shares
  import Sequences

  datatype Allocation = Allocation(uuid: string, vendor: string, memoryMiB: int, corePercent: int)

  const MAX_INT64: int := 0x7FFF_FFFF_FFFF_FFFF
  const MIN_INT64: int := -0x8000_0000_0000_0000

  // ----- white space

  /** The code points with the white-space property. */
  predicate IsSpace(c: char) {
    var k := c as int;
    || 0x09 <= k <= 0x0D || k == 0x20 || k == 0x85 || k == 0xA0 || k == 0x1680 || 0x2000 <= k <= 0x200A
    || k == 0x2028 || k == 0x2029 || k == 0x202F || k == 0x205F || k == 0x3000
  }

  function TrimLeft(s: string): (r: string)
    ensures r == "" || !IsSpace(r[0])
    ensures forall c :: c in r ==> c in s
  {
    if s != "" && IsSpace(s[0]) then TrimLeft(s[1..]) else s
  }

  function TrimRight(s: string): (r: string)
    ensures r <= s
    ensures r == "" || !IsSpace(r[|r| - 1])
  {
    if s != "" && IsSpace(s[|s| - 1]) then TrimRight(s[..|s| - 1]) else s
  }

  function Trim(s: string): (r: string)
    ensures forall c :: c in r ==> c in s
    ensures Trimmed(r)
  {
    TrimRight(TrimLeft(s))
  }

  /** No white space at either end. */
  predicate Trimmed(s: string) {
    s == "" || (!IsSpace(s[0]) && !IsSpace(s[|s| - 1]))
  }

  predicate Blank(s: string) {
    forall c :: c in s ==> IsSpace(c)
  }

  lemma {:induction false} TrimLeftAppend(s: string, c: char)
    requires IsSpace(c)
    ensures TrimLeft(s + [c]) == if TrimLeft(s) == "" then "" else TrimLeft(s) + [c]
  {
    if s == "" {
      assert (s + [c])[1..] == "";
    } else {
      assert (s + [c])[1..] == s[1..] + [c];
      if IsSpace(s[0]) {
        TrimLeftAppend(s[1..], c);
      }
    }
  }

  /** White space at either end does not survive. */
  lemma TrimAbsorbs(s: string, c: char)
    requires IsSpace(c)
    ensures Trim([c] + s) == Trim(s) == Trim(s + [c])
  {
    assert ([c] + s)[1..] == s;
    TrimLeftAppend(s, c);
    var t := TrimLeft(s);
    assert (t + [c])[..|t + [c]| - 1] == t;
  }

  lemma {:induction false} TrimLeftBlank(s: string)
    ensures TrimLeft(s) == "" <==> Blank(s)
  {
    if s != "" {
      assert s == [s[0]] + s[1..];
      if IsSpace(s[0]) {
        TrimLeftBlank(s[1..]);
      }
    }
  }

  lemma {:induction false} TrimRightKeeps(s: string)
    requires s != "" && !IsSpace(s[0])
    ensures TrimRight(s) != ""
  {
    if IsSpace(s[|s| - 1]) {
      TrimRightKeeps(s[..|s| - 1]);
    }
  }

  lemma TrimBlank(s: string)
    ensures Trim(s) == "" <==> Blank(s)
  {
    TrimLeftBlank(s);
    if TrimLeft(s) != "" {
      TrimRightKeeps(TrimLeft(s));
    }
  }

  // ----- splitting

  /** The pieces between separators; there is always at least one. */
  function Split(s: string, sep: char): (r: seq<string>)
    ensures |r| >= 1
  {
    if s == "" then [""]
    else if s[0] == sep then [""] + Split(s[1..], sep)
    else var rest := Split(s[1..], sep); [[s[0]] + rest[0]] + rest[1..]
  }

  /** Two lists of pieces put together, the pieces that meet fused into one. */
  function Glue(a: seq<string>, b: seq<string>): seq<string>
    requires a != [] && b != []
  {
    a[..|a| - 1] + [a[|a| - 1] + b[0]] + b[1..]
  }

  lemma GlueLonger(p: string, a: seq<string>, b: seq<string>)
    requires a != [] && b != []
    ensures Glue([p] + a, b) == [p] + Glue(a, b)
  {
    assert ([p] + a)[..|a|] == [p] + a[..|a| - 1];
  }

  lemma GlueFirst(c: char, a: seq<string>, b: seq<string>)
    requires a != [] && b != []
    ensures Glue([[c] + a[0]] + a[1..], b) == [[c] + Glue(a, b)[0]] + Glue(a, b)[1..]
  {
    var l := [[c] + a[0]] + a[1..];
    if |a| == 1 {
      assert [c] + a[0] + b[0] == [c] + (a[0] + b[0]);
    } else {
      assert l[..|l| - 1] == [[c] + a[0]] + a[1..|a| - 1];
      assert Glue(a, b)[1..] == a[1..|a| - 1] + [a[|a| - 1] + b[0]] + b[1..];
    }
  }

  /** Splitting a concatenation fuses the two pieces that meet. */
  lemma {:induction false} SplitGlue(x: string, y: string, sep: char)
    ensures Split(x + y, sep) == Glue(Split(x, sep), Split(y, sep))
  {
    var a, b := Split(x, sep), Split(y, sep);
    if x == "" {
      assert x + y == y;
      assert "" + b[0] == b[0];
    } else {
      assert (x + y)[0] == x[0] && (x + y)[1..] == x[1..] + y;
      SplitGlue(x[1..], y, sep);
      if x[0] == sep {
        GlueLonger("", Split(x[1..], sep), b);
      } else {
        GlueFirst(x[0], Split(x[1..], sep), b);
      }
    }
  }

  lemma {:induction false} SplitPlain(s: string, sep: char)
    requires sep !in s
    ensures Split(s, sep) == [s]
  {
    if s != "" {
      SplitPlain(s[1..], sep);
      assert [s[0]] + s[1..] == s;
    }
  }

  /** A separator cuts: the pieces of both sides, in order. */
  lemma SplitCuts(x: string, y: string, sep: char)
    ensures Split(x + [sep] + y, sep) == Split(x, sep) + Split(y, sep)
  {
    var a, b := Split(x, sep), Split(y, sep);
    assert ([sep] + y)[1..] == y;
    SplitGlue(x, [sep] + y, sep);
    assert x + [sep] + y == x + ([sep] + y);
    assert Split([sep] + y, sep) == [""] + b;
    assert a[|a| - 1] + "" == a[|a| - 1];
    assert a == a[..|a| - 1] + [a[|a| - 1]];
  }

  /** The pieces hold the text's characters, without the separator, and every other character of the
      text is in some piece. */
  lemma {:induction false} SplitContents(s: string, sep: char, c: char)
    ensures (c != sep && c in s) <==> exists p :: p in Split(s, sep) && c in p
    ensures forall p :: p in Split(s, sep) ==> sep !in p
  {
    if s != "" {
      SplitContents(s[1..], sep, c);
      var r, rest := Split(s, sep), Split(s[1..], sep);
      assert s == [s[0]] + s[1..];
      assert rest == [rest[0]] + rest[1..];
      if s[0] == sep {
        assert forall p :: p in r <==> p == "" || p in rest;
      } else {
        var first := [s[0]] + rest[0];
        assert forall p :: p in r <==> p == first || p in rest[1..];
        assert c in first <==> c == s[0] || c in rest[0];
        assert sep in first <==> sep in rest[0];
        assert forall p :: p in rest <==> p == rest[0] || p in rest[1..];
        assert first in r;
      }
    } else {
      assert Split(s, sep) == [""];
    }
  }

  // ----- integers

  function ParseInt(s: string): Option<int> {
    var signed := s != "" && (s[0] == '-' || s[0] == '+');
    var digits := if signed then s[1..] else s;
    if digits == "" || !AllDigits(digits) then None
    else
      var v: int := if signed && s[0] == '-' then 0 - ValueOf(digits) else ValueOf(digits);
      if MIN_INT64 <= v <= MAX_INT64 then Some(v) else None
  }

  predicate InRange(v: int) {
    -9223372036854775808 <= v <= 9223372036854775807
  }

  /** Digits, with a sign or without, are read as their value where it fits 64 bits. */
  lemma NumbersRead(digits: string)
    requires digits != "" && AllDigits(digits)
    ensures var v: int := ValueOf(digits);
            && ParseInt(digits) == ParseInt("+" + digits) == (if InRange(v) then Some(v) else None)
            && ParseInt("-" + digits) == (if InRange(-v) then Some(-v) else None)
  {
    assert IsDigit(digits[0]);
    assert ("+" + digits)[1..] == digits && ("-" + digits)[1..] == digits;
  }

  /** Nothing else is. */
  lemma OnlyNumbersRead(s: string)
    requires ParseInt(s).Some?
    ensures exists digits :: digits != "" && AllDigits(digits) && s in {digits, "+" + digits, "-" + digits}
  {
    if s[0] == '+' || s[0] == '-' {
      assert s == [s[0]] + s[1..];
      assert s[1..] != "" && AllDigits(s[1..]);
    } else {
      assert s != "" && AllDigits(s);
    }
  }

  /** A printed number reads back exactly when it fits 64 bits. */
  lemma ParseIntText(v: int)
    ensures ParseInt(Text(v)) == if InRange(v) then Some(v) else None
  {
    var digits := Digits(if v < 0 then -v else v);
    ValueOfDigits(if v < 0 then -v else v);
    if v < 0 {
      assert Text(v) == "-" + digits && ("-" + digits)[1..] == digits;
    } else {
      assert Text(v) == digits && IsDigit(digits[0]);
    }
  }

  lemma TextCharacters(v: int)
    ensures Text(v) != "" && forall c :: c in Text(v) ==> c == '-' || IsDigit(c)
  {
    var digits := Digits(if v < 0 then -v else v);
    assert Text(v) == (if v < 0 then "-" else "") + digits;
  }

  // ----- the meaning of a value

  /** Both parse, or neither counts. */
  function Combine(x: Option<seq<Allocation>>, y: Option<seq<Allocation>>): Option<seq<Allocation>> {
    if x.Some? && y.Some? then Some(x.value + y.value) else None
  }

  function Map<T>(xs: seq<string>, f: string -> T): (r: seq<T>)
    ensures |r| == |xs| && forall i :: 0 <= i < |xs| ==> r[i] == f(xs[i])
  {
    seq(|xs|, i requires 0 <= i < |xs| => f(xs[i]))
  }

  function Concat(xs: seq<Option<seq<Allocation>>>): Option<seq<Allocation>> {
    if xs == [] then Some([]) else Combine(Concat(xs[..|xs| - 1]), xs[|xs| - 1])
  }

  lemma {:induction false} ConcatJoins(xs: seq<Option<seq<Allocation>>>, ys: seq<Option<seq<Allocation>>>)
    ensures Concat(xs + ys) == Combine(Concat(xs), Concat(ys))
  {
    if ys == [] {
      assert xs + ys == xs;
      assert Concat(xs).Some? ==> Concat(xs).value + [] == Concat(xs).value;
    } else {
      assert (xs + ys)[..|xs + ys| - 1] == xs + ys[..|ys| - 1];
      ConcatJoins(xs, ys[..|ys| - 1]);
      Associates(Concat(xs), Concat(ys[..|ys| - 1]), ys[|ys| - 1]);
    }
  }

  lemma Associates(x: Option<seq<Allocation>>, y: Option<seq<Allocation>>, z: Option<seq<Allocation>>)
    ensures Combine(Combine(x, y), z) == Combine(x, Combine(y, z))
  {
    if x.Some? && y.Some? && z.Some? {
      assert x.value + y.value + z.value == x.value + (y.value + z.value);
    }
  }

  lemma ConcatOne(x: Option<seq<Allocation>>)
    ensures Concat([x]) == x
  {
    assert Concat([x]) == Combine(Concat([x][..0]), x);
    assert x.Some? ==> [] + x.value == x.value;
  }

  /** Four fields or more, each freed of white space. */
  function FromFields(fields: seq<string>): Option<seq<Allocation>> {
    if |fields| < 4 then None
    else
      var mem, cores := ParseInt(fields[2]), ParseInt(fields[3]);
      if mem.None? || cores.None? then None
      else Some([Allocation(fields[0], fields[1], mem.value, cores.value)])
  }

  function Fields(record: string): seq<string> {
    Map(Split(record, ','), Trim)
  }

  /** A blank record holds nothing; any other must have its fields. */
  function ParseRecord(record: string): Option<seq<Allocation>> {
    if Blank(record) then Some([]) else FromFields(Fields(record))
  }

  function ParseGroup(group: string): Option<seq<Allocation>> {
    Concat(Map(Split(group, ':'), ParseRecord))
  }

  /** What a value says, with no trimming but that of single fields. */
  function Parse(value: string): Option<seq<Allocation>> {
    Concat(Map(Split(value, ';'), ParseGroup))
  }

  lemma MapJoins<T>(xs: seq<string>, ys: seq<string>, f: string -> T)
    ensures Map(xs + ys, f) == Map(xs, f) + Map(ys, f)
  {
  }

  // ----- white space is absorbed at every level

  /** The reader gives the same answer with white space added at either end. */
  ghost predicate Absorbs<T(!new)>(f: string -> T) {
    forall s: string, c: char {:trigger f([c] + s)} {:trigger f(s + [c])} :: IsSpace(c) ==> f([c] + s) == f(s) == f(s + [c])
  }

  /** The reader cannot tell two lists apart that differ in one piece it reads alike. */
  lemma MapFirst<T>(a: seq<string>, x: string, f: string -> T)
    requires a != [] && f(x) == f(a[0])
    ensures Map([x] + a[1..], f) == Map(a, f)
  {
  }

  lemma MapLast<T>(a: seq<string>, x: string, f: string -> T)
    requires a != [] && f(x) == f(a[|a| - 1])
    ensures Map(a[..|a| - 1] + [x], f) == Map(a, f)
  {
  }

  lemma SplitEdges(s: string, c: char, sep: char)
    requires c != sep
    ensures var a := Split(s, sep);
            Split([c] + s, sep) == [[c] + a[0]] + a[1..] && Split(s + [c], sep) == a[..|a| - 1] + [a[|a| - 1] + [c]]
  {
    SplitGlue([c], s, sep);
    SplitGlue(s, [c], sep);
    SplitPlain([c], sep);
  }

  lemma AbsorbsSplit<T(!new)>(s: string, c: char, sep: char, f: string -> T)
    requires Absorbs(f) && IsSpace(c) && c != sep
    ensures Map(Split([c] + s, sep), f) == Map(Split(s, sep), f) == Map(Split(s + [c], sep), f)
  {
    SplitEdges(s, c, sep);
    var a := Split(s, sep);
    var first, last := [c] + a[0], a[|a| - 1] + [c];
    assert f(first) == f(a[0]) && f(last) == f(a[|a| - 1]);
    MapFirst(a, first, f);
    MapLast(a, last, f);
  }

  lemma TrimIsAbsorbing()
    ensures Absorbs(Trim)
  {
    forall s, c | IsSpace(c) ensures Trim([c] + s) == Trim(s) == Trim(s + [c]) {
      TrimAbsorbs(s, c);
    }
  }

  lemma RecordsAbsorb()
    ensures Absorbs(ParseRecord)
  {
    TrimIsAbsorbing();
    forall s, c | IsSpace(c) ensures ParseRecord([c] + s) == ParseRecord(s) == ParseRecord(s + [c]) {
      AbsorbsSplit(s, c, ',', Trim);
      TrimAbsorbs(s, c);
      TrimBlank(s);
      TrimBlank([c] + s);
      TrimBlank(s + [c]);
    }
  }

  lemma GroupsAbsorb()
    ensures Absorbs(ParseGroup)
  {
    RecordsAbsorb();
    forall s, c | IsSpace(c) ensures ParseGroup([c] + s) == ParseGroup(s) == ParseGroup(s + [c]) {
      AbsorbsSplit(s, c, ':', ParseRecord);
    }
  }

  lemma ValuesAbsorb()
    ensures Absorbs(Parse)
  {
    GroupsAbsorb();
    forall s, c | IsSpace(c) ensures Parse([c] + s) == Parse(s) == Parse(s + [c]) {
      AbsorbsSplit(s, c, ';', ParseGroup);
    }
  }

  lemma {:induction false} TrimLeftUnread<T(!new)>(s: string, f: string -> T)
    requires Absorbs(f)
    ensures f(TrimLeft(s)) == f(s)
  {
    if s != "" && IsSpace(s[0]) {
      TrimLeftUnread(s[1..], f);
      assert s == [s[0]] + s[1..];
    }
  }

  lemma {:induction false} TrimRightUnread<T(!new)>(s: string, f: string -> T)
    requires Absorbs(f)
    ensures f(TrimRight(s)) == f(s)
  {
    if s != "" && IsSpace(s[|s| - 1]) {
      TrimRightUnread(s[..|s| - 1], f);
      assert s == s[..|s| - 1] + [s[|s| - 1]];
    }
  }

  /** A reader that absorbs white space cannot tell a text from its trimmed form. */
  lemma TrimUnread<T(!new)>(s: string, f: string -> T)
    requires Absorbs(f)
    ensures f(Trim(s)) == f(s)
  {
    TrimLeftUnread(s, f);
    TrimRightUnread(TrimLeft(s), f);
  }

  // ----- the parser

  /** The body of the innermost loop. */
  method ReadRecord(text: string) returns (r: Option<seq<Allocation>>)
    ensures r == ParseRecord(text)
  {
    RecordsAbsorb();
    TrimUnread(text, ParseRecord);
    TrimBlank(text);
    var record := Trim(text);
    if record == "" {
      return Some([]);
    }
    TrimBlank(record);
    assert Trim(record) != "" by {
      TrimIsAbsorbing();
      TrimUnread(text, Trim);
    }
    var fields := Split(record, ',');
    if |fields| < 4 {
      return None;
    }
    var mem := ParseInt(Trim(fields[2]));
    if mem.None? {
      return None;
    }
    var cores := ParseInt(Trim(fields[3]));
    if cores.None? {
      return None;
    }
    r := Some([Allocation(Trim(fields[0]), Trim(fields[1]), mem.value, cores.value)]);
  }

  lemma PrefixReads(pieces: seq<string>, k: nat, f: string -> Option<seq<Allocation>>)
    requires k < |pieces|
    ensures Concat(Map(pieces[..k + 1], f)) == Combine(Concat(Map(pieces[..k], f)), f(pieces[k]))
    ensures Concat(Map(pieces[..k + 1], f)).None? ==> Concat(Map(pieces, f)).None?
  {
    assert pieces == pieces[..k + 1] + pieces[k + 1..];
    MapJoins(pieces[..k + 1], pieces[k + 1..], f);
    ConcatJoins(Map(pieces[..k + 1], f), Map(pieces[k + 1..], f));
    assert Map(pieces[..k + 1], f)[..k] == Map(pieces[..k], f);
  }

  /** The loop over the records of one container. */
  method ReadGroup(group: string) returns (r: Option<seq<Allocation>>)
    ensures r == ParseGroup(group)
  {
    var records := Split(group, ':');
    var out: seq<Allocation> := [];
    for k := 0 to |records|
      invariant Concat(Map(records[..k], ParseRecord)) == Some(out)
    {
      PrefixReads(records, k, ParseRecord);
      var one := ReadRecord(records[k]);
      if one.None? {
        return None;
      }
      out := out + one.value;
    }
    assert records[..|records|] == records;
    r := Some(out);
  }

  lemma BlankReads(value: string)
    requires Trim(value) == ""
    ensures ParseGroup(value) == Some([]) && Parse(value) == Some([])
  {
    GroupsAbsorb();
    ValuesAbsorb();
    TrimUnread(value, ParseGroup);
    TrimUnread(value, Parse);
    NothingReads();
  }

  lemma NothingReads()
    ensures ParseGroup("") == Some([]) && Parse("") == Some([])
  {
    assert Map([""], ParseRecord) == [ParseRecord("")];
    ConcatOne(ParseRecord(""));
    assert Map([""], ParseGroup) == [ParseGroup("")];
    ConcatOne(ParseGroup(""));
  }

  /** The parser with its early exits and its three rounds of trimming reads what the plain meaning
      says, and fails exactly when that does. */
  method ParseAllocations(text: string) returns (r: Option<seq<Allocation>>)
    ensures r == Parse(text)
  {
    ValuesAbsorb();
    TrimUnread(text, Parse);
    var value := Trim(text);
    if value == "" {
      BlankReads(text);
      return Some([]);
    }
    var groups := Split(value, ';');
    var out: seq<Allocation> := [];
    for k := 0 to |groups|
      invariant Concat(Map(groups[..k], ParseGroup)) == Some(out)
    {
      PrefixReads(groups, k, ParseGroup);
      if Trim(groups[k]) == "" {
        BlankReads(groups[k]);
        assert out + [] == out;
        continue;
      }
      var some := ReadGroup(groups[k]);
      if some.None? {
        return None;
      }
      out := out + some.value;
    }
    assert groups[..|groups|] == groups;
    r := Some(out);
  }

  // ----- composition

  lemma GroupsCompose(a: string, b: string)
    ensures ParseGroup(a + ":" + b) == Combine(ParseGroup(a), ParseGroup(b))
  {
    SplitCuts(a, b, ':');
    MapJoins(Split(a, ':'), Split(b, ':'), ParseRecord);
    ConcatJoins(Map(Split(a, ':'), ParseRecord), Map(Split(b, ':'), ParseRecord));
  }

  /** Values compose: two of them with a semicolon between mean both, and fail exactly when one does. */
  lemma ValuesCompose(a: string, b: string)
    ensures Parse(a + ";" + b) == Combine(Parse(a), Parse(b))
  {
    SplitCuts(a, b, ';');
    MapJoins(Split(a, ';'), Split(b, ';'), ParseGroup);
    ConcatJoins(Map(Split(a, ';'), ParseGroup), Map(Split(b, ';'), ParseGroup));
  }

  lemma ParseEnds(pieces: seq<string>, f: string -> Option<seq<Allocation>>)
    requires pieces != []
    ensures Concat(Map(pieces, f)) == Combine(Concat(Map(pieces[..|pieces| - 1], f)), f(pieces[|pieces| - 1]))
    ensures Concat(Map(pieces, f)) == Combine(f(pieces[0]), Concat(Map(pieces[1..], f)))
  {
    assert Map(pieces, f)[..|pieces| - 1] == Map(pieces[..|pieces| - 1], f);
    assert pieces == [pieces[0]] + pieces[1..];
    MapJoins([pieces[0]], pieces[1..], f);
    assert Map([pieces[0]], f) == [f(pieces[0])];
    ConcatJoins([f(pieces[0])], Map(pieces[1..], f));
    ConcatOne(f(pieces[0]));
  }

  /** Reading two lists of pieces fused by a joint that composes. */
  lemma FusedReads(x: seq<string>, fused: string, y: seq<string>, f: string -> Option<seq<Allocation>>)
    requires x != [] && y != [] && f(fused) == Combine(f(x[|x| - 1]), f(y[0]))
    ensures Concat(Map(x[..|x| - 1] + [fused] + y[1..], f)) == Combine(Concat(Map(x, f)), Concat(Map(y, f)))
  {
    var front, rest := x[..|x| - 1], y[1..];
    MapJoins(front + [fused], rest, f);
    ConcatJoins(Map(front + [fused], f), Map(rest, f));
    ParseEnds(front + [fused], f);
    assert (front + [fused])[..|front|] == front;
    ParseEnds(x, f);
    ParseEnds(y, f);
    var p, q, s, t := Concat(Map(front, f)), f(x[|x| - 1]), f(y[0]), Concat(Map(rest, f));
    Associates(p, q, s);
    Associates(Combine(p, q), s, t);
  }

  /** The colon composes in the same way, so the two separators mean the same: containers leave no
      trace in what is read. */
  lemma ColonComposes(a: string, b: string)
    ensures Parse(a + ":" + b) == Combine(Parse(a), Parse(b)) == Parse(a + ";" + b)
  {
    ValuesCompose(a, b);
    var x, y := Split(a, ';'), Split(b, ';');
    var last, first := x[|x| - 1], y[0];
    SplitPlain(":", ';');
    SplitGlue(a, ":", ';');
    assert Split(a + ":", ';') == x[..|x| - 1] + [last + ":"];
    SplitGlue(a + ":", b, ';');
    assert Split(a + ":" + b, ';') == x[..|x| - 1] + [last + ":" + first] + y[1..];
    GroupsCompose(last, first);
    FusedReads(x, last + ":" + first, y, ParseGroup);
  }

  /** Fields after the fourth do not matter. */
  lemma ExtraFieldsIgnored(record: string, extra: string)
    requires |Split(record, ',')| >= 4
    ensures ParseRecord(record + "," + extra) == ParseRecord(record)
  {
    SplitCuts(record, extra, ',');
    MapJoins(Split(record, ','), Split(extra, ','), Trim);
    HasComma(record);
    assert ',' in record + "," + extra;
  }

  lemma HasComma(record: string)
    requires |Split(record, ',')| >= 2
    ensures ',' in record && !Blank(record)
  {
    if ',' !in record {
      SplitPlain(record, ',');
    }
  }

  // ----- what can be read at all

  predicate Plain(s: string) {
    Trimmed(s) && ',' !in s && ':' !in s && ';' !in s
  }

  /** A record the format can carry. */
  predicate WellFormed(a: Allocation) {
    Plain(a.uuid) && Plain(a.vendor) && InRange(a.memoryMiB) && InRange(a.corePercent)
  }

  predicate AllWellFormed(xs: seq<Allocation>) {
    forall i :: 0 <= i < |xs| ==> WellFormed(xs[i])
  }

  lemma RecordWellFormed(record: string)
    requires ':' !in record && ';' !in record && ParseRecord(record).Some?
    ensures AllWellFormed(ParseRecord(record).value)
  {
    if !Blank(record) {
      var a := ParseRecord(record).value[0];
      assert ParseRecord(record).value == [a];
      FieldIsPlain(record, 0);
      FieldIsPlain(record, 1);
    }
  }

  lemma FieldIsPlain(record: string, k: nat)
    requires ':' !in record && ';' !in record && k < |Fields(record)|
    ensures Plain(Fields(record)[k])
  {
    var pieces := Split(record, ',');
    forall c | c in Trim(pieces[k]) ensures c in record && c != ',' {
      SplitContents(record, ',', c);
      assert pieces[k] in pieces && c in pieces[k];
    }
  }

  lemma {:induction false} ConcatWellFormed(xs: seq<Option<seq<Allocation>>>)
    requires Concat(xs).Some?
    requires forall i :: 0 <= i < |xs| && xs[i].Some? ==> AllWellFormed(xs[i].value)
    ensures AllWellFormed(Concat(xs).value)
  {
    if xs != [] {
      assert xs[..|xs| - 1] + [xs[|xs| - 1]] == xs;
      ConcatWellFormed(xs[..|xs| - 1]);
    }
  }

  lemma GroupWellFormed(group: string)
    requires ';' !in group && ParseGroup(group).Some?
    ensures AllWellFormed(ParseGroup(group).value)
  {
    var records := Split(group, ':');
    var read := Map(records, ParseRecord);
    forall i | 0 <= i < |read| && read[i].Some? ensures AllWellFormed(read[i].value) {
      SplitContents(group, ':', ';');
      assert records[i] in records;
      RecordWellFormed(records[i]);
    }
    ConcatWellFormed(read);
  }

  /** Whatever is read is well formed. */
  lemma ParsedIsWellFormed(value: string)
    requires Parse(value).Some?
    ensures AllWellFormed(Parse(value).value)
  {
    var groups := Split(value, ';');
    var read := Map(groups, ParseGroup);
    forall i | 0 <= i < |read| && read[i].Some? ensures AllWellFormed(read[i].value) {
      SplitContents(value, ';', ';');
      assert groups[i] in groups;
      GroupWellFormed(groups[i]);
    }
    ConcatWellFormed(read);
  }

  // ----- printing

  function PrintRecord(a: Allocation): string {
    a.uuid + "," + a.vendor + "," + Text(a.memoryMiB) + "," + Text(a.corePercent)
  }

  function PrintGroup(xs: seq<Allocation>): (r: string)
    ensures r == "" || r[|r| - 1] == ':'
  {
    if xs == [] then "" else PrintGroup(xs[..|xs| - 1]) + PrintRecord(xs[|xs| - 1]) + ":"
  }

  /** The measured format: every record ended by a colon, every container by a semicolon. */
  function Print(groups: seq<seq<Allocation>>): (r: string)
    ensures r == "" || r[|r| - 1] == ';'
  {
    if groups == [] then "" else Print(groups[..|groups| - 1]) + PrintGroup(groups[|groups| - 1]) + ";"
  }

  function Flat(groups: seq<seq<Allocation>>): seq<Allocation> {
    if groups == [] then [] else Flat(groups[..|groups| - 1]) + groups[|groups| - 1]
  }

  lemma TrimPlain(s: string)
    requires Trimmed(s)
    ensures Trim(s) == s
  {
  }

  lemma RecordRoundTrip(a: Allocation)
    requires WellFormed(a)
    ensures ParseRecord(PrintRecord(a)) == Some([a])
  {
    var m, c := Text(a.memoryMiB), Text(a.corePercent);
    ParseIntText(a.memoryMiB);
    ParseIntText(a.corePercent);
    NumbersArePlain(a.memoryMiB);
    NumbersArePlain(a.corePercent);
    PlainFields(a.uuid, a.vendor, m, c);
  }

  lemma PlainFields(u: string, v: string, m: string, c: string)
    requires Plain(u) && Plain(v) && Plain(m) && Plain(c)
    ensures var record := u + "," + v + "," + m + "," + c;
            !Blank(record) && Fields(record) == [u, v, m, c]
  {
    FourFields(u, v, m, c);
    TrimPlain(u);
    TrimPlain(v);
    TrimPlain(m);
    TrimPlain(c);
    HasComma(u + "," + v + "," + m + "," + c);
  }

  lemma FourFields(u: string, v: string, m: string, c: string)
    requires ',' !in u && ',' !in v && ',' !in m && ',' !in c
    ensures Split(u + "," + v + "," + m + "," + c, ',') == [u, v, m, c]
  {
    SplitPlain(u, ',');
    SplitPlain(v, ',');
    SplitPlain(m, ',');
    SplitPlain(c, ',');
    SplitCuts(u, v, ',');
    SplitCuts(u + "," + v, m, ',');
    SplitCuts(u + "," + v + "," + m, c, ',');
  }

  lemma RecordCharacters(a: Allocation)
    requires WellFormed(a)
    ensures ':' !in PrintRecord(a) && ';' !in PrintRecord(a)
  {
    NumbersArePlain(a.memoryMiB);
    NumbersArePlain(a.corePercent);
  }

  lemma NumbersArePlain(v: int)
    ensures Plain(Text(v))
  {
    TextCharacters(v);
    assert forall c :: c == '-' || IsDigit(c) ==> !IsSpace(c);
    assert Text(v)[0] in Text(v) && Text(v)[|Text(v)| - 1] in Text(v);
  }

  /** One more ended record after ended records. */
  lemma OneMoreRecord(done: string, record: string)
    requires (done == "" || done[|done| - 1] == ':') && ':' !in record
    ensures ParseGroup(done + record + ":") == Combine(ParseGroup(done), ParseRecord(record))
  {
    EndedGroup(done + record);
    AfterRecords(done, record);
    OneRecord(record);
  }

  lemma {:induction false} GroupRoundTrip(xs: seq<Allocation>)
    requires AllWellFormed(xs)
    ensures ParseGroup(PrintGroup(xs)) == Some(xs)
  {
    NothingReads();
    if xs != [] {
      var front, a := xs[..|xs| - 1], xs[|xs| - 1];
      Sequences.LastSplits(xs);
      GroupRoundTrip(front);
      RecordRoundTrip(a);
      RecordCharacters(a);
      assert PrintGroup(xs) == PrintGroup(front) + PrintRecord(a) + ":";
      OneMoreRecord(PrintGroup(front), PrintRecord(a));
    }
  }

  lemma {:induction false} GroupCharacters(xs: seq<Allocation>)
    requires AllWellFormed(xs)
    ensures ';' !in PrintGroup(xs)
  {
    if xs != [] {
      GroupCharacters(xs[..|xs| - 1]);
      RecordCharacters(xs[|xs| - 1]);
    }
  }

  /** A separator at the end adds nothing. */
  lemma EndedGroup(x: string)
    ensures ParseGroup(x + ":") == ParseGroup(x)
  {
    NothingReads();
    GroupsCompose(x, "");
    assert x + ":" + "" == x + ":";
    RightUnit(ParseGroup(x));
  }

  lemma OneRecord(record: string)
    requires ':' !in record
    ensures ParseGroup(record) == ParseRecord(record)
  {
    SplitPlain(record, ':');
    assert Map([record], ParseRecord) == [ParseRecord(record)];
    ConcatOne(ParseRecord(record));
  }

  /** Text after ended records is read on its own. */
  lemma AfterRecords(done: string, more: string)
    requires done == "" || done[|done| - 1] == ':'
    ensures ParseGroup(done + more) == Combine(ParseGroup(done), ParseGroup(more))
  {
    NothingReads();
    if done == "" {
      assert done + more == more;
      LeftUnit(ParseGroup(more));
    } else {
      var head := done[..|done| - 1];
      assert done == head + ":";
      GroupsCompose(head, more);
      EndedGroup(head);
    }
  }

  lemma RightUnit(x: Option<seq<Allocation>>)
    ensures Combine(x, Some([])) == x
  {
    assert x.Some? ==> x.value + [] == x.value;
  }

  lemma LeftUnit(x: Option<seq<Allocation>>)
    ensures Combine(Some([]), x) == x
  {
    assert x.Some? ==> [] + x.value == x.value;
  }

  /** One more ended container after ended containers. */
  lemma OneMoreGroup(done: string, group: string)
    requires (done == "" || done[|done| - 1] == ';') && ';' !in group
    ensures Parse(done + group + ";") == Combine(Parse(done), ParseGroup(group))
  {
    EndedValue(done + group);
    AfterGroups(done, group);
    OneGroup(group);
  }

  lemma {:induction false} PrintedReads(groups: seq<seq<Allocation>>)
    requires forall i :: 0 <= i < |groups| ==> AllWellFormed(groups[i])
    ensures Parse(Print(groups)) == Some(Flat(groups))
  {
    NothingReads();
    if groups != [] {
      var front, xs := groups[..|groups| - 1], groups[|groups| - 1];
      PrintedReads(front);
      GroupRoundTrip(xs);
      GroupCharacters(xs);
      assert Print(groups) == Print(front) + PrintGroup(xs) + ";";
      OneMoreGroup(Print(front), PrintGroup(xs));
    }
  }

  lemma EndedValue(x: string)
    ensures Parse(x + ";") == Parse(x)
  {
    NothingReads();
    ValuesCompose(x, "");
    assert x + ";" + "" == x + ";";
    RightUnit(Parse(x));
  }

  lemma OneGroup(group: string)
    requires ';' !in group
    ensures Parse(group) == ParseGroup(group)
  {
    SplitPlain(group, ';');
    assert Map([group], ParseGroup) == [ParseGroup(group)];
    ConcatOne(ParseGroup(group));
  }

  /** Text after ended containers is read on its own. */
  lemma AfterGroups(done: string, more: string)
    requires done == "" || done[|done| - 1] == ';'
    ensures Parse(done + more) == Combine(Parse(done), Parse(more))
  {
    NothingReads();
    if done == "" {
      assert done + more == more;
      LeftUnit(Parse(more));
    } else {
      var head := done[..|done| - 1];
      assert done == head + ";";
      ValuesCompose(head, more);
      EndedValue(head);
    }
  }

  lemma {:induction false} FlatHolds(groups: seq<seq<Allocation>>, i: nat)
    requires i < |groups| && AllWellFormed(Flat(groups))
    ensures AllWellFormed(groups[i])
  {
    var front, xs := groups[..|groups| - 1], groups[|groups| - 1];
    var flat := Flat(front) + xs;
    assert forall k :: 0 <= k < |Flat(front)| ==> flat[k] == Flat(front)[k];
    assert forall k :: 0 <= k < |xs| ==> flat[|Flat(front)| + k] == xs[k];
    if i < |front| {
      FlatHolds(front, i);
    }
  }

  /** Printing any containers and reading them gives their records back, in order, if and only if
      every record is well formed. */
  lemma PrintRoundTrip(groups: seq<seq<Allocation>>)
    ensures Parse(Print(groups)) == Some(Flat(groups)) <==>
            forall i :: 0 <= i < |groups| ==> AllWellFormed(groups[i])
  {
    if forall i :: 0 <= i < |groups| ==> AllWellFormed(groups[i]) {
      PrintedReads(groups);
    } else if Parse(Print(groups)) == Some(Flat(groups)) {
      ParsedIsWellFormed(Print(groups));
      forall i | 0 <= i < |groups| ensures AllWellFormed(groups[i]) {
        FlatHolds(groups, i);
      }
    }
  }

  // ----- what an empty annotation is

  predicate Punctuation(c: char) {
    c == ':' || c == ';' || c as int in {9, 10, 11, 12, 13, 32, 133, 160, 5760, 8192, 8193, 8194, 8195, 8196, 8197, 8198, 8199,
                                         8200, 8201, 8202, 8232, 8233, 8239, 8287, 12288}
  }

  predicate SpaceOrSeparator(c: char) {
    IsSpace(c) || c == ':' || c == ';'
  }

  lemma PunctuationExactly(s: string)
    ensures (forall c :: c in s ==> Punctuation(c)) <==> forall c :: c in s ==> SpaceOrSeparator(c)
  {
    forall c: char ensures Punctuation(c) <==> SpaceOrSeparator(c) {
    }
  }

  lemma {:induction false} ConcatEmpty(xs: seq<Option<seq<Allocation>>>)
    ensures Concat(xs) == Some([]) <==> forall i :: 0 <= i < |xs| ==> xs[i] == Some([])
  {
    if xs != [] {
      var front, last := xs[..|xs| - 1], xs[|xs| - 1];
      ConcatEmpty(front);
      assert xs == front + [last];
      if Concat(xs) == Some([]) {
        assert |Concat(front).value| + |last.value| == |Concat(xs).value| == 0;
      }
    }
  }

  lemma GroupEmpty(group: string)
    ensures ParseGroup(group) == Some([]) <==> forall c :: c in group ==> IsSpace(c) || c == ':'
  {
    var records := Split(group, ':');
    ConcatEmpty(Map(records, ParseRecord));
    if ParseGroup(group) == Some([]) {
      forall c | c in group && c != ':' ensures IsSpace(c) {
        SplitContents(group, ':', c);
        var p :| p in records && c in p;
        var i :| 0 <= i < |records| && records[i] == p;
        assert Map(records, ParseRecord)[i] == ParseRecord(p);
      }
    } else {
      var i :| 0 <= i < |records| && ParseRecord(records[i]) != Some([]);
      var c :| c in records[i] && !IsSpace(c);
      SplitContents(group, ':', c);
      assert records[i] in records;
      assert c in group && c != ':';
    }
  }

  /** A value reads as nothing held exactly when it is white space and separators, as the `;;` that a
      completed binding leaves; anything else is a share or an error. */
  lemma ReadsAsNothing(value: string)
    ensures Parse(value) == Some([]) <==> forall c :: c in value ==> Punctuation(c)
  {
    PunctuationExactly(value);
    BareReadsAsNothing(value);
  }

  lemma BareReadsAsNothing(value: string)
    ensures Parse(value) == Some([]) <==> forall c :: c in value ==> SpaceOrSeparator(c)
  {
    var groups := Split(value, ';');
    ConcatEmpty(Map(groups, ParseGroup));
    if Parse(value) == Some([]) {
      forall c | c in value ensures SpaceOrSeparator(c) {
        if c != ';' {
          SplitContents(value, ';', c);
          var p :| p in groups && c in p;
          var i :| 0 <= i < |groups| && groups[i] == p;
          assert Map(groups, ParseGroup)[i] == ParseGroup(p);
          GroupEmpty(p);
        }
      }
    } else {
      var i :| 0 <= i < |groups| && ParseGroup(groups[i]) != Some([]);
      GroupEmpty(groups[i]);
      var c :| c in groups[i] && !(IsSpace(c) || c == ':');
      SplitContents(value, ';', c);
      assert groups[i] in groups;
      assert c in value && c != ';';
    }
  }

  // ----- from annotations to the drain gate

  function ToShares(xs: seq<Allocation>): (r: seq<Shares.Share>)
    ensures |r| == |xs|
    ensures forall i :: 0 <= i < |xs| ==> r[i] == Shares.Share(xs[i].uuid, xs[i].memoryMiB, xs[i].corePercent)
  {
    seq(|xs|, i requires 0 <= i < |xs| => Shares.Share(xs[i].uuid, xs[i].memoryMiB, xs[i].corePercent))
  }

  function Decoded(value: string): Option<seq<Shares.Share>> {
    if Parse(value).Some? then Some(ToShares(Parse(value).value)) else None
  }

  /** A pod with its two annotations as text; an absent one is the empty string. */
  datatype AnnotatedPod = AnnotatedPod(node: string, terminal: bool, granted: string, binding: string) {
    function Read(): Shares.Pod {
      Shares.Pod(node, terminal, Decoded(granted), Decoded(binding))
    }
  }

  function ReadAll(pods: seq<AnnotatedPod>): (r: seq<Shares.Pod>)
    ensures |r| == |pods| && forall i :: 0 <= i < |pods| ==> r[i] == pods[i].Read()
  {
    seq(|pods|, i requires 0 <= i < |pods| => pods[i].Read())
  }

  predicate Cleared(pod: AnnotatedPod) {
    pod.terminal || forall c :: c in pod.granted + pod.binding ==> Punctuation(c)
  }

  lemma BusyText(pod: AnnotatedPod)
    ensures !Shares.Busy(pod.Read()) <==> Cleared(pod)
  {
    ReadsAsNothing(pod.granted);
    ReadsAsNothing(pod.binding);
    assert forall c :: c in pod.granted + pod.binding <==> c in pod.granted || c in pod.binding;
    if pod.Read().granted.Some? && pod.Read().binding.Some? {
      assert |Shares.SharesOf(pod.Read())| == |Parse(pod.granted).value| + |Parse(pod.binding).value|;
    }
  }

  /** The removal gate in terms of the annotations themselves: a Node reads as empty exactly when each
      of its unfinished pods carries nothing but separators and white space in both. */
  lemma GateOnText(pods: seq<AnnotatedPod>, node: string)
    ensures var reading := Shares.ReadingOf(ReadAll(pods), node);
            (reading.Some? && reading.value.Empty()) <==> forall p :: p in pods && p.node == node ==> Cleared(p)
  {
    Shares.EmptyMeansIdle(ReadAll(pods), node);
    ClearedText(pods, node);
  }

  lemma ClearedText(pods: seq<AnnotatedPod>, node: string)
    ensures (forall p :: p in ReadAll(pods) && p.node == node ==> !Shares.Busy(p)) <==>
            forall p :: p in pods && p.node == node ==> Cleared(p)
  {
    var read := ReadAll(pods);
    if forall p :: p in pods && p.node == node ==> Cleared(p) {
      forall p | p in read && p.node == node ensures !Shares.Busy(p) {
        var i :| 0 <= i < |read| && read[i] == p;
        assert pods[i] in pods;
        BusyText(pods[i]);
      }
    } else {
      var q :| q in pods && q.node == node && !Cleared(q);
      var i :| 0 <= i < |pods| && pods[i] == q;
      assert read[i] in read && read[i].node == node;
      BusyText(q);
    }
  }

  /** The totals of a list of allocations; they add up over composed values. */
  method SumAllocations(xs: seq<Allocation>) returns (memory: int, cores: int)
    ensures memory == Shares.SumMemory(ToShares(xs)) && cores == Shares.SumCores(ToShares(xs))
  {
    memory, cores := 0, 0;
    for k := 0 to |xs|
      invariant memory == Shares.SumMemory(ToShares(xs[..k])) && cores == Shares.SumCores(ToShares(xs[..k]))
    {
      assert ToShares(xs[..k + 1])[..k] == ToShares(xs[..k]);
      memory := memory + xs[k].memoryMiB;
      cores := cores + xs[k].corePercent;
    }
    assert xs[..|xs|] == xs;
  }

}
