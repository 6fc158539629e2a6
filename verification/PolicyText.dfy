/**
 Policies travel as text: Kalm writes one policy per line, the adapter cuts the text into lines and the policy
 loader cuts each line into fields. This module proves when that journey is lossless.
 */
module PolicyText {
  import opened Base

  // ---- spaces, as Go's strings package sees them ----

  predicate IsSpace(c: char) {
    || c == ' ' || c == '\t' || c == '\n' || c == '\r'
    || c == '\U{000B}' || c == '\U{000C}' || c == '\U{0085}' || c == '\U{00A0}'
    || ('\U{1680}' <= c && IsWideSpace(c))
  }

  predicate IsWideSpace(c: char) {
    || c == '\U{1680}' || '\U{2000}' <= c <= '\U{200A}' || c == '\U{2028}' || c == '\U{2029}'
    || c == '\U{202F}' || c == '\U{205F}' || c == '\U{3000}'
  }

  function TrimLeft(s: string): string {
    if s != "" && IsSpace(s[0]) then TrimLeft(s[1..]) else s
  }

  function TrimRight(s: string): string {
    if s != "" && IsSpace(s[|s| - 1]) then TrimRight(s[..|s| - 1]) else s
  }

  function Trim(s: string): string {
    TrimRight(TrimLeft(s))
  }

  /** The code points Unicode calls white space. */
  predicate IsSpaceCode(n: int) {
    || 9 <= n <= 13 || n == 32 || n == 0x85 || n == 0xA0 || n == 0x1680 || 0x2000 <= n <= 0x200A
    || n == 0x2028 || n == 0x2029 || n == 0x202F || n == 0x205F || n == 0x3000
  }

  lemma SpaceCode(c: char)
    ensures IsSpace(c) <==> IsSpaceCode(c as int)
  {
  }

  lemma {:induction false} TrimLeftMeans(s: string) returns (cut: string)
    ensures s == cut + TrimLeft(s) && forall c :: c in cut ==> IsSpaceCode(c as int)
    ensures TrimLeft(s) != "" ==> !IsSpaceCode(TrimLeft(s)[0] as int)
  {
    cut := "";
    if s != "" {
      SpaceCode(s[0]);
      if IsSpace(s[0]) {
        var more := TrimLeftMeans(s[1..]);
        cut := [s[0]] + more;
      }
    }
  }

  lemma {:induction false} TrimRightMeans(s: string) returns (cut: string)
    ensures s == TrimRight(s) + cut && forall c :: c in cut ==> IsSpaceCode(c as int)
    ensures TrimRight(s) != "" ==> !IsSpaceCode(TrimRight(s)[|TrimRight(s)| - 1] as int)
  {
    cut := "";
    if s != "" {
      SpaceCode(s[|s| - 1]);
      if IsSpace(s[|s| - 1]) {
        var more := TrimRightMeans(s[..|s| - 1]);
        cut := more + [s[|s| - 1]];
      }
    }
  }

  /** Trimming takes just the white space off both ends. */
  lemma TrimMeans(s: string) returns (before: string, after: string)
    ensures s == before + Trim(s) + after && forall c :: c in before + after ==> IsSpaceCode(c as int)
    ensures var t := Trim(s); t != "" ==> !IsSpaceCode(t[0] as int) && !IsSpaceCode(t[|t| - 1] as int)
  {
    before := TrimLeftMeans(s);
    after := TrimRightMeans(TrimLeft(s));
    assert Trim(s) != "" ==> Trim(s)[0] == TrimLeft(s)[0];
  }

  // ---- writing and loading ----

  /** One policy: its key ("p" or "g") and its fields. */
  type Fields = seq<string>

  function Write(fields: Fields): string {
    Join(fields, ", ")
  }

  function Unlines(lines: seq<string>): string {
    if lines == [] then "" else lines[0] + "\n" + Unlines(lines[1..])
  }

  function TrimAll(parts: seq<string>): (r: seq<string>)
    ensures |r| == |parts|
  {
    if parts == [] then [] else [Trim(parts[0])] + TrimAll(parts[1..])
  }

  /** Loading one line; blank lines, comments and lines with an unknown key are dropped. */
  function LoadLine(line: string): seq<Fields> {
    if line == "" || line[0] == '#' then []
    else
      var fields := TrimAll(Split(line, ','));
      if fields[0] == "p" || fields[0] == "g" then [fields] else []
  }

  function LoadEach(lines: seq<string>, load: string -> seq<Fields>): seq<Fields> {
    if lines == [] then [] else load(lines[0]) + LoadEach(lines[1..], load)
  }

  function LoadLines(lines: seq<string>): seq<Fields> {
    LoadEach(lines, LoadLine)
  }

  function Load(text: string): seq<Fields> {
    LoadLines(Split(text, '\n'))
  }

  lemma LoadOne(line: string)
    ensures LoadLines([line]) == LoadLine(line)
  {
    assert [line][1..] == [];
    assert LoadEach([line][1..], LoadLine) == [];
    assert LoadLine(line) + [] == LoadLine(line);
  }

  lemma LoadLinesStep(lines: seq<string>, i: nat)
    requires i < |lines|
    ensures LoadLines(lines[i..]) == LoadLine(lines[i]) + LoadLines(lines[i + 1..])
  {
    assert lines[i..][1..] == lines[i + 1..];
  }

  /** The adapter: it keeps the text and turns it into policies whenever the enforcer asks. */
  class StringPolicyAdapter {
    var line: string

    constructor (line: string)
      ensures this.line == line
    {
      this.line := line;
    }

    method SetPoliciesString(policies: string)
      modifies this
      ensures line == policies
    {
      line := policies;
    }

    method LoadPolicy() returns (model: seq<Fields>)
      ensures model == Load(line)
    {
      var strs := Split(line, '\n');
      ghost var all := LoadLines(strs);
      model := [];
      assert strs[0..] == strs;
      for i := 0 to |strs|
        invariant model + LoadLines(strs[i..]) == all
      {
        ghost var rest := LoadLines(strs[i + 1..]);
        var loaded := LoadStr(strs, i);
        assert (model + loaded) + rest == model + (loaded + rest);
        model := model + loaded;
      }
      assert LoadLines(strs[|strs|..]) == [];
    }
  }

  method LoadStr(strs: seq<string>, i: nat) returns (loaded: seq<Fields>)
    requires i < |strs|
    ensures LoadLines(strs[i..]) == loaded + LoadLines(strs[i + 1..])
  {
    LoadLinesStep(strs, i);
    if strs[i] == "" { return []; }
    return LoadLine(strs[i]);
  }

  // ---- when nothing is lost ----

  /** A field that survives: no separator, no line break, no space at either end. */
  predicate CleanField(f: string) {
    ',' !in f && '\n' !in f && Trim(f) == f
  }

  predicate CleanPolicy(fields: Fields) {
    && |fields| >= 1 && (fields[0] == "p" || fields[0] == "g")
    && forall f :: f in fields ==> CleanField(f)
  }

  lemma {:induction false} TrimLeftStops(s: string)
    ensures TrimLeft(s) == "" || !IsSpace(TrimLeft(s)[0])
  {
    if s != "" && IsSpace(s[0]) { TrimLeftStops(s[1..]); }
  }

  lemma {:induction false} TrimRightKeepsFirst(s: string)
    ensures TrimRight(s) == "" || (s != "" && TrimRight(s)[0] == s[0])
    ensures TrimRight(TrimRight(s)) == TrimRight(s)
    ensures |TrimRight(s)| <= |s|
  {
    if s != "" && IsSpace(s[|s| - 1]) { TrimRightKeepsFirst(s[..|s| - 1]); }
  }

  lemma TrimIsIdempotent(s: string)
    ensures Trim(Trim(s)) == Trim(s)
  {
    TrimLeftStops(s);
    TrimRightKeepsFirst(TrimLeft(s));
  }

  lemma TrimDropsLeadingSpace(f: string)
    requires Trim(f) == f
    ensures Trim(" " + f) == f
  {
    assert (" " + f)[1..] == f;
  }

  lemma {:induction false} TrimKeepsSubset(s: string)
    ensures forall c :: c in Trim(s) ==> c in s
  {
    TrimLeftSubset(s);
    TrimRightSubset(TrimLeft(s));
  }

  lemma {:induction false} TrimLeftSubset(s: string)
    ensures forall c :: c in TrimLeft(s) ==> c in s
  {
    if s != "" && IsSpace(s[0]) { TrimLeftSubset(s[1..]); }
  }

  lemma {:induction false} TrimRightSubset(s: string)
    ensures forall c :: c in TrimRight(s) ==> c in s
  {
    if s != "" && IsSpace(s[|s| - 1]) { TrimRightSubset(s[..|s| - 1]); }
  }

  lemma WrittenFirst(fields: Fields, lead: string)
    requires |fields| > 1
    ensures lead + Write(fields) == (lead + fields[0]) + [','] + (" " + Write(fields[1..]))
  {
  }

  lemma TrimAllFirst(x: string, parts: seq<string>)
    ensures TrimAll([x] + parts) == [Trim(x)] + TrimAll(parts)
  {
    assert ([x] + parts)[1..] == parts;
  }

  lemma LeadIsTrimmed(f: string, lead: string)
    requires CleanField(f) && (lead == "" || lead == " ")
    ensures ',' !in lead + f && Trim(lead + f) == f
  {
    if lead == " " {
      TrimDropsLeadingSpace(f);
    } else {
      assert lead + f == f;
    }
  }

  /** Cutting a written policy at its commas gives the fields back, each but the first after one space. */
  lemma {:induction false} SplitWritten(fields: Fields, lead: string)
    requires |fields| >= 1 && forall f :: f in fields ==> CleanField(f)
    requires lead == "" || lead == " "
    ensures TrimAll(Split(lead + Write(fields), ',')) == fields
  {
    assert fields[0] in fields;
    var x := lead + fields[0];
    LeadIsTrimmed(fields[0], lead);
    if |fields| == 1 {
      SplitLast(x, ',');
    } else {
      var rest := " " + Write(fields[1..]);
      SplitWritten(fields[1..], " ");
      WrittenFirst(fields, lead);
      SplitFirst(x, ',', rest);
      TrimAllFirst(x, Split(rest, ','));
    }
  }

  lemma {:induction false} WrittenHasNoBreak(fields: Fields)
    requires forall f :: f in fields ==> '\n' !in f
    ensures '\n' !in Write(fields)
  {
    if |fields| > 1 {
      WrittenHasNoBreak(fields[1..]);
    }
  }

  lemma LoadWritten(fields: Fields)
    requires CleanPolicy(fields)
    ensures LoadLine(Write(fields)) == [fields]
  {
    SplitWritten(fields, "");
    assert "" + Write(fields) == Write(fields);
    assert Write(fields)[0] == fields[0][0];
  }

  /** The loader reads a text of whole lines line by line. */
  lemma {:induction false} LoadUnlines(lines: seq<string>)
    requires forall l :: l in lines ==> '\n' !in l
    ensures Load(Unlines(lines)) == LoadLines(lines)
  {
    if lines == [] {
      assert Load("") == LoadLines([""]);
    } else {
      LoadUnlines(lines[1..]);
      SplitFirst(lines[0], '\n', Unlines(lines[1..]));
      assert Unlines(lines) == lines[0] + ['\n'] + Unlines(lines[1..]);
      assert ([lines[0]] + Split(Unlines(lines[1..]), '\n'))[1..] == Split(Unlines(lines[1..]), '\n');
    }
  }

  /** Whatever the text, every loaded field is clean. */
  lemma {:induction false} TrimmedPartsAreClean(parts: seq<string>)
    requires forall part :: part in parts ==> ',' !in part && '\n' !in part
    ensures forall f :: f in TrimAll(parts) ==> CleanField(f)
  {
    if parts != [] {
      TrimmedPartsAreClean(parts[1..]);
      TrimIsIdempotent(parts[0]);
      TrimKeepsSubset(parts[0]);
    }
  }

  lemma LoadedLineIsClean(line: string)
    requires '\n' !in line
    ensures forall p :: p in LoadLine(line) ==> CleanPolicy(p)
  {
    SplitKeepsSubset(line, ',');
    TrimmedPartsAreClean(Split(line, ','));
  }

  lemma {:induction false} LoadedLinesAreClean(lines: seq<string>)
    requires forall l :: l in lines ==> '\n' !in l
    ensures forall p :: p in LoadLines(lines) ==> CleanPolicy(p)
  {
    if lines != [] {
      LoadedLineIsClean(lines[0]);
      LoadedLinesAreClean(lines[1..]);
    }
  }

  /** Writing one policy and loading the text gives that policy back exactly when all its fields are clean. */
  lemma RoundTrip(fields: Fields)
    ensures Load(Write(fields) + "\n") == [fields] <==> CleanPolicy(fields)
  {
    if CleanPolicy(fields) {
      LoadWritten(fields);
      WrittenHasNoBreak(fields);
      assert Unlines([Write(fields)]) == Write(fields) + "\n";
      LoadOne(Write(fields));
      LoadUnlines([Write(fields)]);
    }
    LoadedLinesAreClean(Split(Write(fields) + "\n", '\n'));
    if Load(Write(fields) + "\n") == [fields] {
      assert fields in Load(Write(fields) + "\n");
    }
  }
}
