/**
 * The text of an ESM `export { … };` statement as both library plugins
 * write it, and a reader that recovers the bindings such a statement
 * exports. The reader is the partner of every renderer in this project:
 * a rendered statement reads back to exactly the bindings it was made from,
 * in order.
 */
module EsmSyntax {
  import opened Wrappers

  /** One name an export clause makes visible: a local binding and the name it is exported under. */
  datatype Binding = Binding(local: string, exported: string)

  /** Characters that delimit the parts of an export clause. */
  predicate IsDelimiter(c: char) {
    c == ',' || c == ' ' || c == '\n'
  }

  predicate IsBlank(c: char) {
    c == ' ' || c == '\n'
  }

  /** A name that can stand in an export clause as it is: nonempty, without blank, comma or newline. */
  predicate IsClauseName(s: string) {
    |s| > 0 && forall i :: 0 <= i < |s| ==> !IsDelimiter(s[i])
  }

  predicate IsClauseBinding(b: Binding) {
    IsClauseName(b.local) && IsClauseName(b.exported)
  }

  /** The `local as exported` form of an entry. */
  function AsEntry(b: Binding): string {
    b.local + " as " + b.exported
  }

  /**
   * The entry `e` exports binding `b`: it is the `as` form, or the bare local
   * name when the local and exported names coincide.
   */
  predicate Denotes(e: string, b: Binding) {
    e == AsEntry(b) || (b.local == b.exported && e == b.local)
  }

  /** A separator between entries: a comma followed by blanks (", " and ",\n" are the two in use). */
  predicate IsListSeparator(sep: string) {
    |sep| >= 1 && sep[0] == ',' && forall i :: 1 <= i < |sep| ==> IsBlank(sep[i])
  }

  /** `Array.prototype.join`: the parts with `sep` between neighbours. */
  function Join(parts: seq<string>, sep: string): string {
    if |parts| == 0 then ""
    else if |parts| == 1 then parts[0]
    else parts[0] + sep + Join(parts[1..], sep)
  }

  const StatementOpen: string := "export { "
  const StatementClose: string := " };\n"

  /** The one export statement both plugins append: `export { e1<sep>e2… };` and a newline. */
  function ExportStatement(entries: seq<string>, sep: string): string {
    StatementOpen + Join(entries, sep) + StatementClose
  }

  function AsEntries(bs: seq<Binding>): (es: seq<string>)
    ensures |es| == |bs|
    ensures forall i :: 0 <= i < |bs| ==> es[i] == AsEntry(bs[i])
  {
    if bs == [] then [] else [AsEntry(bs[0])] + AsEntries(bs[1..])
  }

  /** The exported names of a list of bindings, in order. */
  function ExportedNames(bs: seq<Binding>): (names: seq<string>)
    ensures |names| == |bs|
    ensures forall i :: 0 <= i < |bs| ==> names[i] == bs[i].exported
  {
    if bs == [] then [] else [bs[0].exported] + ExportedNames(bs[1..])
  }

  // ---------------------------------------------------------------------
  // Reading a statement back

  /** The position of the first `c` in `s`, or `|s|` when there is none. */
  function IndexOf(s: string, c: char): (k: nat)
    ensures k <= |s|
    ensures k < |s| ==> s[k] == c
    ensures forall i :: 0 <= i < k ==> s[i] != c
  {
    if |s| == 0 then 0
    else if s[0] == c then 0
    else 1 + IndexOf(s[1..], c)
  }

  /** Splits `s` at every comma. */
  function SplitAtCommas(s: string): (pieces: seq<string>)
    ensures |pieces| >= 1
  {
    if |s| == 0 then [""]
    else if s[0] == ',' then [""] + SplitAtCommas(s[1..])
    else
      var rest := SplitAtCommas(s[1..]);
      [[s[0]] + rest[0]] + rest[1..]
  }

  /** Drops leading blanks. */
  function TrimBlanks(s: string): string {
    if |s| > 0 && IsBlank(s[0]) then TrimBlanks(s[1..]) else s
  }

  /**
   * Reads one entry: `a as b` is the binding of `a` under `b`, a bare `a` the
   * binding of `a` under `a`; anything else (another keyword, an empty or
   * blank-bearing name) is None. Whatever it accepts is a binding the entry
   * denotes.
   */
  function ReadEntry(e: string): (r: Option<Binding>)
    ensures r.Some? ==> IsClauseBinding(r.value) && Denotes(e, r.value)
  {
    var k := IndexOf(e, ' ');
    if k == |e| then
      if IsClauseName(e) then Some(Binding(e, e)) else None
    else if k + 4 <= |e| && e[k..k + 4] == " as " && IsClauseName(e[..k]) && IsClauseName(e[k + 4..]) then
      assert e == e[..k] + e[k..k + 4] + e[k + 4..];
      Some(Binding(e[..k], e[k + 4..]))
    else None
  }

  /** Reads every piece (leading blanks dropped); None as soon as one is not an entry. */
  function ReadEntries(pieces: seq<string>): (r: Option<seq<Binding>>)
    ensures r.Some? ==> |r.value| == |pieces|
  {
    if pieces == [] then Some([])
    else match ReadEntry(TrimBlanks(pieces[0]))
      case None => None
      case Some(b) =>
        match ReadEntries(pieces[1..])
        case None => None
        case Some(bs) => Some([b] + bs)
  }

  /** The bindings an export statement exports, or None when `s` is not one. */
  function ReadStatement(s: string): Option<seq<Binding>> {
    if |s| >= |StatementOpen| + |StatementClose|
       && s[..|StatementOpen|] == StatementOpen
       && s[|s| - |StatementClose|..] == StatementClose
    then ReadEntries(SplitAtCommas(s[|StatementOpen|..|s| - |StatementClose|]))
    else None
  }

  // ---------------------------------------------------------------------
  // Round trip

  predicate NoComma(s: string) {
    forall i :: 0 <= i < |s| ==> s[i] != ','
  }

  predicate AllBlank(s: string) {
    forall i :: 0 <= i < |s| ==> IsBlank(s[i])
  }

  lemma {:induction false} SplitCommaFree(a: string, t: string)
    requires NoComma(a)
    ensures SplitAtCommas(a + t) == [a + SplitAtCommas(t)[0]] + SplitAtCommas(t)[1..]
    decreases |a|
  {
    if |a| > 0 {
      assert (a + t)[0] == a[0];
      assert (a + t)[1..] == a[1..] + t;
      SplitCommaFree(a[1..], t);
      assert [a[0]] + (a[1..] + SplitAtCommas(t)[0]) == a + SplitAtCommas(t)[0];
    } else {
      assert a + t == t;
      var st := SplitAtCommas(t);
      assert a + st[0] == st[0];
      assert st == [st[0]] + st[1..];
    }
  }

  /** Splitting at a comma that follows a comma-free head. */
  lemma SplitAfterHead(head: string, rest: string)
    requires NoComma(head)
    ensures SplitAtCommas(head + "," + rest) == [head] + SplitAtCommas(rest)
  {
    SplitCommaFree(head, "," + rest);
    assert head + "," + rest == head + ("," + rest);
    assert ("," + rest)[1..] == rest;
    assert ("," + rest)[0] == ',';
    var sr := SplitAtCommas(rest);
    assert SplitAtCommas("," + rest) == [""] + sr;
    assert ([""] + sr)[0] == "" && ([""] + sr)[1..] == sr;
    assert head + "" == head;
  }

  /** A comma-free string is a single piece. */
  lemma SplitSingle(head: string)
    requires NoComma(head)
    ensures SplitAtCommas(head) == [head]
  {
    SplitCommaFree(head, "");
    assert head + "" == head;
  }

  lemma {:induction false} TrimBlankPrefix(w: string, p: string)
    requires AllBlank(w)
    requires |p| > 0 && !IsBlank(p[0])
    ensures TrimBlanks(w + p) == p
    decreases |w|
  {
    if |w| > 0 {
      assert (w + p)[1..] == w[1..] + p;
      TrimBlankPrefix(w[1..], p);
    } else {
      assert w + p == p;
    }
  }

  /** Reading an entry gives back the binding it denotes. */
  lemma ReadEntryDenoted(e: string, b: Binding)
    requires IsClauseBinding(b) && Denotes(e, b)
    ensures ReadEntry(e) == Some(b)
  {
    if e == AsEntry(b) {
      var n := |b.local|;
      assert e[n] == ' ';
      assert forall i :: 0 <= i < n ==> e[i] == b.local[i];
      assert IndexOf(e, ' ') == n;
      assert e[..n] == b.local;
      assert e[n..n + 4] == " as ";
      assert e[n + 4..] == b.exported;
    } else {
      assert forall i :: 0 <= i < |e| ==> e[i] != ' ';
      assert IndexOf(e, ' ') == |e|;
    }
  }

  /** The reader is exact: it accepts `e` as `b` precisely when `e` denotes the clause binding `b`. */
  lemma ReadEntryExact(e: string, b: Binding)
    ensures ReadEntry(e) == Some(b) <==> IsClauseBinding(b) && Denotes(e, b)
  {
    if IsClauseBinding(b) && Denotes(e, b) {
      ReadEntryDenoted(e, b);
    }
  }

  /** Two entries the reader refuses: a keyword other than `as`, and four arbitrary characters in its place. */
  lemma ReadEntryNeedsAs()
    ensures ReadEntry("a is b") == None
    ensures ReadEntry("a XXXXb") == None
  {
    var e1, e2 := "a is b", "a XXXXb";
    assert IndexOf(e1, ' ') == 1 && e1[1..5][1] == 'i';
    assert IndexOf(e2, ' ') == 1 && e2[1..5][1] == 'X';
  }

  lemma EntryShape(e: string, b: Binding)
    requires IsClauseBinding(b) && Denotes(e, b)
    ensures NoComma(e) && |e| > 0 && !IsBlank(e[0])
  {
  }

  lemma ReadEntriesCons(head: string, pieces: seq<string>, b: Binding, bs: seq<Binding>)
    requires ReadEntry(TrimBlanks(head)) == Some(b) && ReadEntries(pieces) == Some(bs)
    ensures ReadEntries([head] + pieces) == Some([b] + bs)
  {
    assert ([head] + pieces)[1..] == pieces;
  }

  /** Blanks in front of a joined list do not change what it reads back to. */
  lemma {:induction false} JoinReadsBack(w: string, entries: seq<string>, bs: seq<Binding>, sep: string)
    requires AllBlank(w) && IsListSeparator(sep)
    requires |entries| == |bs| >= 1
    requires forall i :: 0 <= i < |bs| ==> IsClauseBinding(bs[i]) && Denotes(entries[i], bs[i])
    ensures ReadEntries(SplitAtCommas(w + Join(entries, sep))) == Some(bs)
    decreases |entries|
  {
    var head := w + entries[0];
    EntryShape(entries[0], bs[0]);
    ReadEntryDenoted(entries[0], bs[0]);
    assert NoComma(head);
    TrimBlankPrefix(w, entries[0]);
    assert ReadEntry(TrimBlanks(head)) == Some(bs[0]);
    if |entries| == 1 {
      SplitSingle(head);
      assert w + Join(entries, sep) == head;
      ReadEntriesCons(head, [], bs[0], []);
      assert [head] + [] == [head];
      assert bs == [bs[0]] + [];
    } else {
      var rest := sep[1..] + Join(entries[1..], sep);
      assert sep == "," + sep[1..];
      assert w + Join(entries, sep) == head + "," + rest;
      SplitAfterHead(head, rest);
      JoinReadsBack(sep[1..], entries[1..], bs[1..], sep);
      ReadEntriesCons(head, SplitAtCommas(rest), bs[0], bs[1..]);
      assert bs == [bs[0]] + bs[1..];
    }
  }

  /**
   * The round trip: a statement whose entries denote `bs` (either entry form,
   * either separator) reads back to exactly `bs`, in order.
   */
  lemma StatementReadsBack(entries: seq<string>, bs: seq<Binding>, sep: string)
    requires IsListSeparator(sep)
    requires |entries| == |bs| >= 1
    requires forall i :: 0 <= i < |bs| ==> IsClauseBinding(bs[i]) && Denotes(entries[i], bs[i])
    ensures ReadStatement(ExportStatement(entries, sep)) == Some(bs)
  {
    var j := Join(entries, sep);
    var s := ExportStatement(entries, sep);
    assert s[..|StatementOpen|] == StatementOpen;
    assert s[|s| - |StatementClose|..] == StatementClose;
    assert s[|StatementOpen|..|s| - |StatementClose|] == "" + j;
    JoinReadsBack("", entries, bs, sep);
  }
}
