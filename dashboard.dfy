/**
 * internal/dashboard/static/js/dashboard.js: the cookie lookup and the grouping of parsed log
 * records into nested blocks. The rendering around them is not modelled.
 */
module Dashboard {
  import opened Wrappers
  import opened Strings
  import opened ApiHelpers

  // ---------------------------------------------------------------- getCookie

  /** The text `getCookie` splits the cookie header at. */
  function CookieSep(name: string): string {
    "; " + name + "="
  }

  /**
   * `getCookie`: split "; " + the cookie header at "; name="; when that splits it in exactly two,
   * the value is the second part up to the first ';', and otherwise there is none. A value never
   * holds a ';', and there is none unless "; name=" occurs.
   */
  function GetCookie(cookie: string, name: string): (r: Option<string>)
    ensures r.Some? ==> !Contains(r.value, ";")
    ensures !Contains("; " + cookie, CookieSep(name)) ==> r.None?
  {
    var parts := Split("; " + cookie, CookieSep(name));
    SplitSingle("; " + cookie, CookieSep(name));
    if |parts| == 2 then
      SplitPartsFree(parts[1], ";");
      Some(Split(parts[1], ";")[0])
    else None
  }

  /** The text before the first `c` of `a + b`, when `a` has none and `b` starts with one (or is empty). */
  lemma FirstPart(a: string, b: string, c: char)
    requires !Contains(a, [c])
    requires b == [] || b[0] == c
    ensures Split(a + b, [c])[0] == a
  {
    var s := a + b;
    var i := IndexOf(s, [c]);
    if b == [] {
      assert s == a;
    } else {
      OccursOne(s, c, |a|);
      forall k | 0 <= k < |a| ensures !OccursAt(s, [c], k) {
        assert !OccursAt(a, [c], k);
        OccursOne(a, c, k);
        OccursOne(s, c, k);
      }
      assert i == |a|;
      assert s[..i] == a;
    }
  }

  /**
   * A cookie reads back wherever it stands in the header: when "; name=" occurs in
   * "; " + header at one place only, the value after it, up to the end or the next ';', is found.
   */
  lemma GetCookieAt(cookie: string, name: string, pre: string, value: string, rest: string)
    requires "; " + cookie == pre + CookieSep(name) + value + rest
    requires forall k :: OccursAt("; " + cookie, CookieSep(name), k) ==> k == |pre|
    requires !Contains(value, ";")
    requires rest == [] || rest[0] == ';'
    ensures GetCookie(cookie, name) == Some(value)
  {
    var s := "; " + cookie;
    var sep := CookieSep(name);
    assert s[|pre|..|pre| + |sep|] == sep;
    SplitOnce(s, sep, |pre|);
    assert s[|pre| + |sep|..] == value + rest;
    FirstPart(value, rest, ';');
  }

  /**
   * A cookie named twice is not found: when "; name=" occurs at two places that do not overlap
   * (as for "a=1; a=2"), the split has more than two parts.
   */
  lemma GetCookieTwice(cookie: string, name: string, k1: int, k2: int)
    requires OccursAt("; " + cookie, CookieSep(name), k1) && OccursAt("; " + cookie, CookieSep(name), k2)
    requires k1 + |CookieSep(name)| <= k2
    ensures GetCookie(cookie, name) == None
  {
    SplitTwice("; " + cookie, CookieSep(name), k1, k2);
  }

  // ---------------------------------------------------------------- processLogsIntoGroups

  /**
   * What the grouping builds: a block opened by a "begin" record, with its indent, the records
   * directly inside it and its nested blocks; or, at the top level, a record outside every block.
   */
  datatype Group =
    | Block(header: LogEntry, logs: seq<LogEntry>, indent: nat, subgroups: seq<Group>)
    | Loose(entry: LogEntry)

  /** A record as the grouping compares it: the indent it is given is not part of it. */
  function Key(e: LogEntry): LogEntry {
    e.(indent := 0)
  }

  function Keys(s: seq<LogEntry>): (r: seq<LogEntry>)
    ensures |r| == |s|
  {
    if s == [] then [] else [Key(s[0])] + Keys(s[1..])
  }

  lemma {:induction false} KeysAppend(a: seq<LogEntry>, b: seq<LogEntry>)
    ensures Keys(a + b) == Keys(a) + Keys(b)
    decreases |a|
  {
    if a == [] {
      assert a + b == b;
    } else {
      assert (a + b)[0] == a[0] && (a + b)[1..] == a[1..] + b;
      KeysAppend(a[1..], b);
    }
  }

  /** The records a group holds, by key: its header, its own records, then its nested blocks'. */
  function Flatten(g: Group): seq<LogEntry>
    decreases g, 1
  {
    match g
      case Loose(e) => [Key(e)]
      case Block(h, logs, _, subs) => [Key(h)] + Keys(logs) + FlattenAll(subs)
  }

  function FlattenAll(gs: seq<Group>): seq<LogEntry>
    decreases gs, 0
  {
    if gs == [] then [] else Flatten(gs[0]) + FlattenAll(gs[1..])
  }

  lemma {:induction false} FlattenAllAppend(gs: seq<Group>, g: Group)
    ensures FlattenAll(gs + [g]) == FlattenAll(gs) + Flatten(g)
    decreases |gs|
  {
    if gs == [] {
      assert [g][1..] == [];
    } else {
      assert (gs + [g])[0] == gs[0] && (gs + [g])[1..] == gs[1..] + [g];
      FlattenAllAppend(gs[1..], g);
    }
  }

  /** The keys of the input records that end up in groups: all but the "end" records. */
  function Kept(logs: seq<LogEntry>): seq<LogEntry> {
    if logs == [] then []
    else (if logs[0].entryType == "end" then [] else [Key(logs[0])]) + Kept(logs[1..])
  }

  lemma {:induction false} KeptAppend(a: seq<LogEntry>, e: LogEntry)
    ensures Kept(a + [e]) == Kept(a) + (if e.entryType == "end" then [] else [Key(e)])
    decreases |a|
  {
    var tail := if e.entryType == "end" then [] else [Key(e)];
    if a == [] {
      assert [e][1..] == [];
    } else {
      var head := if a[0].entryType == "end" then [] else [Key(a[0])];
      assert (a + [e])[0] == a[0] && (a + [e])[1..] == a[1..] + [e];
      assert Kept(a + [e]) == head + Kept(a[1..] + [e]);
      KeptAppend(a[1..], e);
      assert head + (Kept(a[1..]) + tail) == (head + Kept(a[1..])) + tail;
    }
  }

  /**
   * Indents as the grouping gives them: a block at depth `d` has indent `d`, the records directly
   * in it have indent `d + 1`, and its nested blocks are at depth `d + 1`.
   */
  predicate WellIndented(g: Group, d: nat)
    decreases g
  {
    match g
      case Loose(e) => e.indent == d
      case Block(h, logs, indent, subs) =>
        && indent == d
        && (forall i :: 0 <= i < |logs| ==> logs[i].indent == d + 1)
        && (forall i :: 0 <= i < |subs| ==> subs[i].Block? && WellIndented(subs[i], d + 1))
  }

  /** The open blocks: the one at position `i` is at depth `i`. */
  predicate OpenStack(stack: seq<Group>) {
    forall i :: 0 <= i < |stack| ==> stack[i].Block? && WellIndented(stack[i], i)
  }

  function FlattenStack(stack: seq<Group>): seq<LogEntry>
  {
    if stack == [] then [] else FlattenStack(stack[..|stack| - 1]) + Flatten(stack[|stack| - 1])
  }

  /** Replacing the innermost open block by another block at its depth. */
  lemma ReplaceTop(stack: seq<Group>, g: Group)
    requires stack != [] && OpenStack(stack) && g.Block? && WellIndented(g, |stack| - 1)
    ensures var stack' := stack[..|stack| - 1] + [g];
      && OpenStack(stack')
      && FlattenStack(stack') == FlattenStack(stack[..|stack| - 1]) + Flatten(g)
  {
    var stack' := stack[..|stack| - 1] + [g];
    assert stack'[..|stack'| - 1] == stack[..|stack| - 1];
    forall i | 0 <= i < |stack'| ensures stack'[i].Block? && WellIndented(stack'[i], i) {
      if i < |stack'| - 1 {
        assert stack'[i] == stack[i];
      }
    }
  }

  /** Every open entry is a block. */
  predicate Blocks(stack: seq<Group>) {
    forall i :: 0 <= i < |stack| ==> stack[i].Block?
  }

  /**
   * A finished group put where the grouping keeps it: among the nested blocks of the innermost
   * open block, or at the top level when no block is open.
   */
  function Attach(groups: seq<Group>, stack: seq<Group>, g: Group): (r: (seq<Group>, seq<Group>))
    requires Blocks(stack)
    ensures |r.1| == |stack| && Blocks(r.1)
  {
    if stack == [] then (groups + [g], [])
    else
      var parent := stack[|stack| - 1];
      (groups, stack[..|stack| - 1] + [parent.(subgroups := parent.subgroups + [g])])
  }

  /** Closing the innermost open block attaches it to what encloses it. */
  function Close(groups: seq<Group>, stack: seq<Group>): (r: (seq<Group>, seq<Group>))
    requires stack != [] && Blocks(stack)
    ensures |r.1| == |stack| - 1 && Blocks(r.1)
  {
    Attach(groups, stack[..|stack| - 1], stack[|stack| - 1])
  }

  /** What one record does to the finished groups and the open blocks. */
  function StepOf(groups: seq<Group>, stack: seq<Group>, log: LogEntry): (r: (seq<Group>, seq<Group>))
    requires Blocks(stack)
    ensures Blocks(r.1)
  {
    if log.entryType == "begin" then (groups, stack + [Block(log, [], |stack|, [])])
    else if log.entryType == "end" then (if stack == [] then (groups, stack) else Close(groups, stack))
    else if stack == [] then (groups + [Loose(log.(indent := 0))], stack)
    else
      var top := stack[|stack| - 1];
      (groups, stack[..|stack| - 1] + [top.(logs := top.logs + [log.(indent := |stack|)])])
  }

  /** The records, one after the other, from the given state. */
  function Run(groups: seq<Group>, stack: seq<Group>, logs: seq<LogEntry>): (r: (seq<Group>, seq<Group>))
    requires Blocks(stack)
    ensures Blocks(r.1)
    decreases |logs|
  {
    if logs == [] then (groups, stack)
    else
      var next := StepOf(groups, stack, logs[0]);
      Run(next.0, next.1, logs[1..])
  }

  /** The blocks still open, closed innermost first. */
  function CloseRest(groups: seq<Group>, stack: seq<Group>): seq<Group>
    requires Blocks(stack)
    decreases |stack|
  {
    if stack == [] then groups
    else
      var next := Close(groups, stack);
      CloseRest(next.0, next.1)
  }

  /** The groups built from a list of records. */
  function GroupsOf(logs: seq<LogEntry>): seq<Group> {
    var st := Run([], [], logs);
    CloseRest(st.0, st.1)
  }

  /** Closing the innermost open block: it joins its parent's nested blocks, or the top level. */
  method CloseBlock(groups: seq<Group>, stack: seq<Group>) returns (groups': seq<Group>, stack': seq<Group>)
    requires stack != [] && OpenStack(stack)
    requires forall i :: 0 <= i < |groups| ==> WellIndented(groups[i], 0)
    ensures |stack| == 1 ==> groups' == groups + [stack[0]] && stack' == []
    ensures |stack| > 1 ==> var parent := stack[|stack| - 2];
      && groups' == groups
      && stack' == stack[..|stack| - 2] + [parent.(subgroups := parent.subgroups + [stack[|stack| - 1]])]
    ensures (groups', stack') == Close(groups, stack)
    ensures OpenStack(stack') && |stack'| == |stack| - 1
    ensures forall i :: 0 <= i < |groups'| ==> WellIndented(groups'[i], 0)
    ensures Held(groups', stack') == Held(groups, stack)
  {
    if |stack| == 1 {
      CloseToTop(groups, stack);
      groups', stack' := groups + [stack[0]], [];
    } else {
      var parent := stack[|stack| - 2];
      CloseIntoParent(stack);
      assert stack[..|stack| - 1][..|stack| - 2] == stack[..|stack| - 2];
      groups', stack' := groups, stack[..|stack| - 2] + [parent.(subgroups := parent.subgroups + [stack[|stack| - 1]])];
    }
  }

  /** The outermost block, closed, becomes a top-level group holding the same records. */
  lemma CloseToTop(groups: seq<Group>, stack: seq<Group>)
    requires |stack| == 1 && OpenStack(stack)
    requires forall i :: 0 <= i < |groups| ==> WellIndented(groups[i], 0)
    ensures forall i :: 0 <= i < |groups + [stack[0]]| ==> WellIndented((groups + [stack[0]])[i], 0)
    ensures FlattenAll(groups + [stack[0]]) + FlattenStack([]) == FlattenAll(groups) + FlattenStack(stack)
  {
    assert WellIndented(stack[0], 0);
    FlattenAllAppend(groups, stack[0]);
    assert stack[..0] == [];
  }

  /** A nested block, closed, is appended to its parent's nested blocks: the same records, in order. */
  lemma CloseIntoParent(stack: seq<Group>)
    requires |stack| >= 2 && OpenStack(stack)
    ensures var parent := stack[|stack| - 2];
      var stack' := stack[..|stack| - 2] + [parent.(subgroups := parent.subgroups + [stack[|stack| - 1]])];
      && OpenStack(stack') && |stack'| == |stack| - 1
      && FlattenStack(stack') == FlattenStack(stack)
  {
    var top := stack[|stack| - 1];
    var rest := stack[..|stack| - 1];
    assert WellIndented(top, |rest|);
    var parent := rest[|rest| - 1];
    assert parent == stack[|rest| - 1];
    var parent' := parent.(subgroups := parent.subgroups + [top]);
    FlattenAllAppend(parent.subgroups, top);
    assert Flatten(parent') == Flatten(parent) + Flatten(top);
    ReplaceTop(rest, parent');
    assert rest[..|rest| - 1] == stack[..|stack| - 2];
    assert stack[..|stack| - 1][..|stack| - 2] == stack[..|stack| - 2];
  }

  /** An ordinary record joins the innermost open block, with the block's inner depth as indent. */
  method AddToTop(stack: seq<Group>, log: LogEntry) returns (stack': seq<Group>)
    requires stack != [] && OpenStack(stack)
    ensures |stack'| == |stack| && stack'[..|stack| - 1] == stack[..|stack| - 1]
    ensures stack'[|stack| - 1] == stack[|stack| - 1].(logs := stack[|stack| - 1].logs + [log.(indent := |stack|)])
    ensures OpenStack(stack')
    ensures multiset(FlattenStack(stack')) == multiset(FlattenStack(stack)) + multiset{Key(log)}
  {
    var entry := log.(indent := |stack|);
    var top := stack[|stack| - 1];
    assert WellIndented(top, |stack| - 1);
    var top' := top.(logs := top.logs + [entry]);
    KeysAppend(top.logs, [entry]);
    assert Flatten(top') == [Key(top.header)] + (Keys(top.logs) + [Key(log)]) + FlattenAll(top.subgroups);
    ReplaceTop(stack, top');
    stack' := stack[..|stack| - 1] + [top'];
  }

  /** A "begin" record becomes the innermost open block, with the current depth as its indent. */
  method PushBlock(groups: seq<Group>, stack: seq<Group>, log: LogEntry) returns (stack': seq<Group>)
    requires OpenStack(stack)
    ensures stack' == stack + [Block(log, [], |stack|, [])]
    ensures OpenStack(stack')
    ensures Held(groups, stack') == Held(groups, stack) + multiset{Key(log)}
  {
    stack' := stack + [Block(log, [], |stack|, [])];
    OpenBlock(stack, log);
    OpenBlockRecords(stack, log);
    BagAppend(FlattenAll(groups), FlattenStack(stack), [Key(log)]);
  }

  /** With no block open, an ordinary record forms a top-level group of its own, at indent 0. */
  method AddLoose(groups: seq<Group>, log: LogEntry) returns (groups': seq<Group>)
    requires forall i :: 0 <= i < |groups| ==> WellIndented(groups[i], 0)
    ensures groups' == groups + [Loose(log.(indent := 0))]
    ensures forall i :: 0 <= i < |groups'| ==> WellIndented(groups'[i], 0)
    ensures multiset(FlattenAll(groups')) == multiset(FlattenAll(groups)) + multiset{Key(log)}
  {
    var entry := log.(indent := 0);
    FlattenAllAppend(groups, Loose(entry));
    assert Flatten(Loose(entry)) == [Key(log)];
    groups' := groups + [Loose(entry)];
  }

  /** The records held by the finished groups and the open blocks together. */
  function Held(groups: seq<Group>, stack: seq<Group>): multiset<LogEntry> {
    multiset(FlattenAll(groups) + FlattenStack(stack))
  }

  /** What a record adds to the groups: nothing for an "end" record, its key otherwise. */
  function Added(log: LogEntry): multiset<LogEntry> {
    if log.entryType == "end" then multiset{} else multiset{Key(log)}
  }

  /** One record of the grouping loop. */
  method Step(groups: seq<Group>, stack: seq<Group>, log: LogEntry) returns (groups': seq<Group>, stack': seq<Group>)
    requires OpenStack(stack)
    requires forall i :: 0 <= i < |groups| ==> WellIndented(groups[i], 0)
    ensures (groups', stack') == StepOf(groups, stack, log)
    ensures OpenStack(stack')
    ensures forall i :: 0 <= i < |groups'| ==> WellIndented(groups'[i], 0)
    ensures Held(groups', stack') == Held(groups, stack) + Added(log)
  {
    groups', stack' := groups, stack;
    if log.entryType == "begin" {
      stack' := PushBlock(groups, stack, log);
      BeginStep(groups, stack, log);
    } else if log.entryType == "end" {
      if |stack| > 0 {
        groups', stack' := CloseBlock(groups, stack);
      }
      EndStep(groups, stack, log);
    } else if |stack| > 0 {
      stack' := AddToTop(stack, log);
      TopStep(groups, stack, log, stack');
    } else {
      groups' := AddLoose(groups, log);
      LooseStep(groups, log);
    }
  }

  lemma BeginStep(groups: seq<Group>, stack: seq<Group>, log: LogEntry)
    requires log.entryType == "begin" && Blocks(stack)
    ensures StepOf(groups, stack, log) == (groups, stack + [Block(log, [], |stack|, [])])
    ensures Added(log) == multiset{Key(log)}
  {
  }

  lemma EndStep(groups: seq<Group>, stack: seq<Group>, log: LogEntry)
    requires log.entryType == "end" && Blocks(stack)
    ensures StepOf(groups, stack, log) == if stack == [] then (groups, stack) else Close(groups, stack)
    ensures Added(log) == multiset{}
  {
  }

  lemma TopStep(groups: seq<Group>, stack: seq<Group>, log: LogEntry, stack': seq<Group>)
    requires log.entryType != "begin" && log.entryType != "end" && stack != [] && Blocks(stack)
    requires |stack'| == |stack| && stack'[..|stack| - 1] == stack[..|stack| - 1]
    requires stack'[|stack| - 1] == stack[|stack| - 1].(logs := stack[|stack| - 1].logs + [log.(indent := |stack|)])
    requires multiset(FlattenStack(stack')) == multiset(FlattenStack(stack)) + multiset{Key(log)}
    ensures StepOf(groups, stack, log) == (groups, stack')
    ensures Held(groups, stack') == Held(groups, stack) + Added(log)
  {
    LastSplit(stack');
    HeldSplit(groups, stack');
    HeldSplit(groups, stack);
  }

  lemma LooseStep(groups: seq<Group>, log: LogEntry)
    requires log.entryType != "begin" && log.entryType != "end"
    ensures StepOf(groups, [], log) == (groups + [Loose(log.(indent := 0))], [])
    ensures Added(log) == multiset{Key(log)}
  {
  }

  lemma HeldSplit(groups: seq<Group>, stack: seq<Group>)
    ensures Held(groups, stack) == multiset(FlattenAll(groups)) + multiset(FlattenStack(stack))
  {
  }

  lemma LastSplit(s: seq<Group>)
    requires s != []
    ensures s == s[..|s| - 1] + [s[|s| - 1]]
  {
  }

  /** A "begin" record opens a block one level below the innermost open one. */
  lemma OpenBlock(stack: seq<Group>, log: LogEntry)
    requires OpenStack(stack)
    ensures OpenStack(stack + [Block(log, [], |stack|, [])])
  {
    var stack' := stack + [Block(log, [], |stack|, [])];
    forall i | 0 <= i < |stack'| ensures stack'[i].Block? && WellIndented(stack'[i], i) {
      if i < |stack| {
        assert stack'[i] == stack[i];
      }
    }
  }

  lemma OpenBlockRecords(stack: seq<Group>, log: LogEntry)
    ensures FlattenStack(stack + [Block(log, [], |stack|, [])]) == FlattenStack(stack) + [Key(log)]
  {
    var group := Block(log, [], |stack|, []);
    var stack' := stack + [group];
    assert Flatten(group) == [Key(log)] by {
      assert Keys([]) == [] && FlattenAll([]) == [];
    }
    assert FlattenStack(stack') == FlattenStack(stack) + Flatten(group) by {
      assert stack'[..|stack'| - 1] == stack && stack'[|stack'| - 1] == group;
    }
  }

  lemma BagAppend(a: seq<LogEntry>, b: seq<LogEntry>, c: seq<LogEntry>)
    ensures multiset(a + (b + c)) == multiset(a + b) + multiset(c)
  {
    assert a + (b + c) == (a + b) + c;
  }

  /**
   * `processLogsIntoGroups`: a "begin" record opens a block at the current depth, an "end"
   * record closes the innermost open block (and is ignored when none is open), and any other
   * record goes, with the current depth as its indent, into the innermost open block or, when
   * none is open, into a group of its own at the top level.
   *
   * The result is `GroupsOf(logs)`. Every record but the "end" records ends up in it exactly
   * once, and every indent is the nesting depth of where it stands.
   */
  method ProcessLogsIntoGroups(logs: seq<LogEntry>) returns (groups: seq<Group>)
    ensures groups == GroupsOf(logs)
    ensures forall i :: 0 <= i < |groups| ==> WellIndented(groups[i], 0)
    ensures multiset(FlattenAll(groups)) == multiset(Kept(logs))
  {
    groups := [];
    var stack: seq<Group> := [];
    var n := 0;
    while n < |logs|
      invariant 0 <= n <= |logs|
      invariant OpenStack(stack)
      invariant forall i :: 0 <= i < |groups| ==> WellIndented(groups[i], 0)
      invariant Held(groups, stack) == multiset(Kept(logs[..n]))
      invariant Run(groups, stack, logs[n..]) == Run([], [], logs)
    {
      KeptStep(logs, n);
      assert logs[n..][0] == logs[n] && logs[n..][1..] == logs[n + 1..];
      groups, stack := Step(groups, stack, logs[n]);
      n := n + 1;
    }
    assert logs[..n] == logs && logs[n..] == [];
    groups := CloseAll(groups, stack);
  }

  /** The records kept from one more input record. */
  lemma KeptStep(logs: seq<LogEntry>, n: nat)
    requires n < |logs|
    ensures multiset(Kept(logs[..n + 1])) == multiset(Kept(logs[..n])) + Added(logs[n])
  {
    assert logs[..n + 1] == logs[..n] + [logs[n]];
    KeptAppend(logs[..n], logs[n]);
  }

  /** The end of the input: the blocks still open are closed, innermost first. */
  method CloseAll(groups: seq<Group>, stack: seq<Group>) returns (groups': seq<Group>)
    requires OpenStack(stack)
    requires forall i :: 0 <= i < |groups| ==> WellIndented(groups[i], 0)
    ensures forall i :: 0 <= i < |groups'| ==> WellIndented(groups'[i], 0)
    ensures groups' == CloseRest(groups, stack)
    ensures multiset(FlattenAll(groups')) == Held(groups, stack)
  {
    groups' := groups;
    var open := stack;
    while open != []
      invariant OpenStack(open)
      invariant CloseRest(groups', open) == CloseRest(groups, stack)
      invariant forall i :: 0 <= i < |groups'| ==> WellIndented(groups'[i], 0)
      invariant Held(groups', open) == Held(groups, stack)
      decreases |open|
    {
      groups', open := CloseBlock(groups', open);
    }
    assert FlattenAll(groups') + FlattenStack(open) == FlattenAll(groups');
  }

  // ---------------------------------------------------------------- records back from groups

  /** A record that neither opens nor closes a block. */
  predicate Plain(e: LogEntry) {
    e.entryType != "begin" && e.entryType != "end"
  }

  /**
   * A group as the grouping builds it at depth `d`: a block's header is a "begin" record, its
   * own records are plain ones at indent `d + 1`, its nested blocks are blocks at depth `d + 1`;
   * a group of its own is a plain record at indent 0, at the top level only.
   */
  predicate Formed(g: Group, d: nat)
    decreases g
  {
    match g
      case Loose(e) => d == 0 && e.indent == 0 && Plain(e)
      case Block(h, logs, indent, subs) =>
        && h.entryType == "begin" && indent == d
        && (forall i :: 0 <= i < |logs| ==> logs[i].indent == d + 1 && Plain(logs[i]))
        && (forall i :: 0 <= i < |subs| ==> subs[i].Block? && Formed(subs[i], d + 1))
  }

  /**
   * Records that group into `g`: a block is its header, its own records, its nested blocks' records
   * and the record `endRec` that closes it.
   */
  function Records(g: Group, endRec: LogEntry): seq<LogEntry>
    decreases g, 1
  {
    match g
      case Loose(e) => [e]
      case Block(h, logs, _, subs) => [h] + logs + RecordsAll(subs, endRec) + [endRec]
  }

  function RecordsAll(gs: seq<Group>, endRec: LogEntry): seq<LogEntry>
    decreases gs, 0
  {
    if gs == [] then [] else Records(gs[0], endRec) + RecordsAll(gs[1..], endRec)
  }

  /** Finished groups put where the grouping keeps them, one after the other. */
  function AttachAll(groups: seq<Group>, stack: seq<Group>, gs: seq<Group>): (seq<Group>, seq<Group>)
    requires Blocks(stack)
  {
    if stack == [] then (groups + gs, [])
    else
      var parent := stack[|stack| - 1];
      (groups, stack[..|stack| - 1] + [parent.(subgroups := parent.subgroups + gs)])
  }

  lemma {:induction false} RunAppend(groups: seq<Group>, stack: seq<Group>, a: seq<LogEntry>, b: seq<LogEntry>)
    requires Blocks(stack)
    ensures var mid := Run(groups, stack, a);
      Run(groups, stack, a + b) == Run(mid.0, mid.1, b)
    decreases |a|
  {
    if a == [] {
      assert a + b == b;
    } else {
      assert (a + b)[0] == a[0] && (a + b)[1..] == a[1..] + b;
      var next := StepOf(groups, stack, a[0]);
      RunAppend(next.0, next.1, a[1..], b);
      assert Run(groups, stack, a + b) == Run(next.0, next.1, a[1..] + b);
      assert Run(groups, stack, a) == Run(next.0, next.1, a[1..]);
    }
  }

  /** Plain records at the inner depth of the innermost open block join its own records. */
  lemma {:induction false} RunLogs(groups: seq<Group>, stack: seq<Group>, logs: seq<LogEntry>)
    requires stack != [] && Blocks(stack)
    requires forall i :: 0 <= i < |logs| ==> logs[i].indent == |stack| && Plain(logs[i])
    ensures var top := stack[|stack| - 1];
      Run(groups, stack, logs) == (groups, stack[..|stack| - 1] + [top.(logs := top.logs + logs)])
    decreases |logs|
  {
    var top := stack[|stack| - 1];
    if logs == [] {
      LastSplit(stack);
      assert top.(logs := top.logs + logs) == top;
    } else {
      var top' := top.(logs := top.logs + [logs[0]]);
      var stack' := stack[..|stack| - 1] + [top'];
      assert logs[0].(indent := |stack|) == logs[0];
      assert StepOf(groups, stack, logs[0]) == (groups, stack');
      assert stack'[..|stack'| - 1] == stack[..|stack| - 1];
      RunLogs(groups, stack', logs[1..]);
      assert top.logs + logs == top.logs + [logs[0]] + logs[1..];
    }
  }

  /** The records of a formed group, read at its depth, put it where the grouping keeps it. */
  lemma {:induction false} RunGroup(groups: seq<Group>, stack: seq<Group>, g: Group, endRec: LogEntry)
    requires Blocks(stack) && Formed(g, |stack|) && endRec.entryType == "end"
    ensures Run(groups, stack, Records(g, endRec)) == Attach(groups, stack, g)
    decreases g, 1
  {
    match g
      case Loose(e) =>
        assert StepOf(groups, stack, e) == (groups + [Loose(e)], []);
      case Block(h, logs, d, subs) =>
        var filled := stack + [Block(h, logs, d, [])];
        var noGroups: seq<Group> := [];
        RunHeader(groups, stack, h, logs, d);
        RunForest(groups, filled, subs, endRec);
        assert filled[..|filled| - 1] == stack;
        assert noGroups + subs == subs;
        RunAppend(groups, stack, [h] + logs, RecordsAll(subs, endRec));
        RunEnd(groups, stack, g, endRec);
        RunAppend(groups, stack, [h] + logs + RecordsAll(subs, endRec), [endRec]);
  }

  /** A "begin" record and plain records at the depth below open a block holding them. */
  lemma RunHeader(groups: seq<Group>, stack: seq<Group>, h: LogEntry, logs: seq<LogEntry>, d: nat)
    requires Blocks(stack) && h.entryType == "begin" && d == |stack|
    requires forall i :: 0 <= i < |logs| ==> logs[i].indent == d + 1 && Plain(logs[i])
    ensures Run(groups, stack, [h] + logs) == (groups, stack + [Block(h, logs, d, [])])
  {
    var begun := stack + [Block(h, [], d, [])];
    var noLogs: seq<LogEntry> := [];
    assert begun[..|begun| - 1] == stack;
    assert StepOf(groups, stack, h) == (groups, begun);
    assert Run(groups, stack, [h]) == (groups, begun);
    RunLogs(groups, begun, logs);
    assert noLogs + logs == logs;
    RunAppend(groups, stack, [h], logs);
  }

  /** The "end" record closes a finished innermost block. */
  lemma RunEnd(groups: seq<Group>, stack: seq<Group>, g: Group, endRec: LogEntry)
    requires Blocks(stack) && g.Block? && endRec.entryType == "end"
    ensures Run(groups, stack + [g], [endRec]) == Attach(groups, stack, g)
  {
    var full := stack + [g];
    assert full[..|full| - 1] == stack && full[|full| - 1] == g;
    assert StepOf(groups, full, endRec) == Attach(groups, stack, g);
  }

  /** The records of formed groups, read at their depth, put them where the grouping keeps them. */
  lemma {:induction false} RunForest(groups: seq<Group>, stack: seq<Group>, gs: seq<Group>, endRec: LogEntry)
    requires Blocks(stack) && endRec.entryType == "end"
    requires forall i :: 0 <= i < |gs| ==> Formed(gs[i], |stack|) && (stack != [] ==> gs[i].Block?)
    ensures Run(groups, stack, RecordsAll(gs, endRec)) == AttachAll(groups, stack, gs)
    decreases gs, 0
  {
    if gs == [] {
      AttachNone(groups, stack);
    } else {
      RunGroup(groups, stack, gs[0], endRec);
      var mid := Attach(groups, stack, gs[0]);
      RunAppend(groups, stack, Records(gs[0], endRec), RecordsAll(gs[1..], endRec));
      RunForest(mid.0, mid.1, gs[1..], endRec);
      AttachCons(groups, stack, gs);
    }
  }

  lemma AttachNone(groups: seq<Group>, stack: seq<Group>)
    requires Blocks(stack)
    ensures AttachAll(groups, stack, []) == (groups, stack)
  {
    if stack == [] {
      assert groups + [] == groups;
    } else {
      LastSplit(stack);
      assert stack[|stack| - 1].subgroups + [] == stack[|stack| - 1].subgroups;
    }
  }

  lemma AttachCons(groups: seq<Group>, stack: seq<Group>, gs: seq<Group>)
    requires Blocks(stack) && gs != []
    ensures var mid := Attach(groups, stack, gs[0]);
      AttachAll(mid.0, mid.1, gs[1..]) == AttachAll(groups, stack, gs)
  {
    var mid := Attach(groups, stack, gs[0]);
    if stack == [] {
      assert groups + [gs[0]] + gs[1..] == groups + gs;
    } else {
      var parent := stack[|stack| - 1];
      assert mid.1[..|mid.1| - 1] == stack[..|stack| - 1];
      assert parent.subgroups + [gs[0]] + gs[1..] == parent.subgroups + gs;
    }
  }

  /**
   * The grouping undoes the writing out: groups formed at the top level, written out as records
   * (each block closed by an "end" record), group back into themselves.
   */
  lemma RecordsThenGroups(gs: seq<Group>, endRec: LogEntry)
    requires endRec.entryType == "end"
    requires forall i :: 0 <= i < |gs| ==> Formed(gs[i], 0)
    ensures GroupsOf(RecordsAll(gs, endRec)) == gs
  {
    RunForest([], [], gs, endRec);
    assert [] + gs == gs;
  }

  /** A "begin" record, one other record and an "end" record make one block holding that record. */
  lemma OneBlock(b: LogEntry, s: LogEntry, e: LogEntry)
    requires b.entryType == "begin" && Plain(s) && e.entryType == "end"
    ensures GroupsOf([b, s, e]) == [Block(b, [s.(indent := 1)], 0, [])]
  {
    var begun := [Block(b, [], 0, [])];
    var filled := [Block(b, [s.(indent := 1)], 0, [])];
    var none: seq<Group> := [];
    assert none + begun == begun;
    assert StepOf(none, none, b) == (none, begun);
    assert begun[0].logs + [s.(indent := 1)] == [s.(indent := 1)];
    assert begun[..0] + filled == filled;
    assert StepOf(none, begun, s) == (none, filled);
    assert none + filled == filled && filled[..0] == none;
    assert StepOf(none, filled, e) == (filled, none);
    assert [b, s, e][1..] == [s, e] && [s, e][1..] == [e] && [e][1..] == [];
    assert Run(filled, none, [e][1..]) == (filled, none);
    assert Run(none, filled, [e]) == (filled, none);
    assert Run(none, begun, [s, e]) == (filled, none);
    assert Run(none, none, [b, s, e]) == (filled, none);
  }
}
