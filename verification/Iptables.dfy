/** iptables: an instance's rules are found in a numbered listing by their
    comment and deleted by number, last to first. */
module Iptables {
  import opened Text
  import Nftables

  /** A rule of ours as the listing prints it: the comment is
      "hospitus:<instance>:<id>", and iptables prints the rest around it. */
  datatype Rule = Rule(instance: string, id: string, before: string, after: string, valid: bool)

  datatype Entry = Ours(rule: Rule) | Foreign(shown: string)

  function Rest(r: Rule): string { r.id + r.after }

  function RuleText(r: Rule): string { r.before + ("hospitus:" + (r.instance + (":" + Rest(r)))) }

  function EntryText(e: Entry): string { if e.Ours? then RuleText(e.rule) else e.shown }

  function Key(instance: string): string { "hospitus:" + (instance + ":") }

  /** What the source takes for a rule of the instance. */
  predicate Mentions(e: Entry, instance: string) { Contains(EntryText(e), Key(instance)) }

  ghost function Hits(instance: string): iset<Entry> { iset e | Mentions(e, instance) }

  // ---- the listing ----

  function Spaces(n: nat): string { if n == 0 then "" else " " + Spaces(n - 1) }

  function NumberColumn(n: nat): string {
    Itoa(n) + Spaces(if |Itoa(n)| < 4 then 5 - |Itoa(n)| else 1)
  }

  function Numbered(es: seq<Entry>): seq<string> {
    if es == [] then []
    else Numbered(es[..|es| - 1]) + [NumberColumn(|es|) + EntryText(es[|es| - 1])]
  }

  function Header(chain: string, references: nat): seq<string> {
    ["Chain " + chain + " (" + Itoa(references) + " references)",
     "num  target" + Spaces(5) + "prot opt source" + Spaces(15) + "destination"]
  }

  /** The lines of "iptables -t nat -L <chain> --line-numbers -n". */
  function Listing(chain: string, references: nat, es: seq<Entry>): seq<string> {
    Header(chain, references) + Numbered(es) + [""]
  }

  // ---- which numbers to delete ----

  function FirstField(line: string): string {
    var s := TrimLeft(line);
    s[..FieldEnd(s)]
  }

  function FieldEnd(s: string): (n: nat)
    ensures n <= |s|
  {
    if s == "" || IsSpace(s[0]) then 0 else 1 + FieldEnd(s[1..])
  }

  function DigitRun(s: string): (n: nat)
    ensures n <= |s| && AllDigits(s[..n])
  {
    if s == "" || !IsDigit(s[0]) then 0 else 1 + DigitRun(s[1..])
  }

  /** Sscanf "%d" into a variable that starts at zero. */
  function ScanInt(s: string): int {
    var v := Atoi(s[..DigitRun(s)]);
    if v.Some? then v.value else 0
  }

  /** The number of a line that is to go, if it is one. */
  function Pick(line: string, instance: string): seq<int> {
    if Contains(line, Key(instance)) && ScanInt(FirstField(line)) > 0 then [ScanInt(FirstField(line))] else []
  }

  function Picked(lines: seq<string>, instance: string): seq<int> {
    if lines == [] then [] else Picked(lines[..|lines| - 1], instance) + Pick(lines[|lines| - 1], instance)
  }

  /** The places, from 1, of the entries to go. */
  ghost function Positions(es: seq<Entry>, hits: iset<Entry>): seq<int> {
    if es == [] then [] else Positions(es[..|es| - 1], hits) + if es[|es| - 1] in hits then [|es|] else []
  }

  ghost predicate InOrder(p: seq<int>, es: seq<Entry>, hits: iset<Entry>) {
    && (forall i :: 0 <= i < |p| ==> 1 <= p[i] <= |es| && es[p[i] - 1] in hits)
    && (forall i, j :: 0 <= i < j < |p| ==> p[i] < p[j])
  }

  lemma {:induction false} PositionsInOrder(es: seq<Entry>, hits: iset<Entry>)
    ensures InOrder(Positions(es, hits), es, hits)
  {
    if es != [] {
      var init := es[..|es| - 1];
      PositionsInOrder(init, hits);
      var p, p' := Positions(init, hits), Positions(es, hits);
      forall i | 0 <= i < |p'| ensures 1 <= p'[i] <= |es| && es[p'[i] - 1] in hits {
        assert i < |p| ==> p'[i] == p[i] && init[p[i] - 1] == es[p[i] - 1];
      }
    }
  }

  lemma {:induction false} SpacesAreBlank(n: nat)
    ensures |Spaces(n)| == n && forall i :: 0 <= i < n ==> Spaces(n)[i] == ' '
  {
    if n > 0 { SpacesAreBlank(n - 1); }
  }

  lemma {:induction false} DigitsEndAt(a: string, b: string)
    requires AllDigits(a) && (b != "" ==> b[0] == ' ')
    ensures FieldEnd(a + b) == |a| && DigitRun(a + b) == |a|
  {
    if a == "" {
      assert a + b == b;
    } else {
      assert (a + b)[1..] == a[1..] + b;
      DigitsEndAt(a[1..], b);
    }
  }

  lemma {:induction false} LineNumberRead(n: nat, text: string)
    requires 1 <= n <= INT64_MAX
    ensures ScanInt(FirstField(NumberColumn(n) + text)) == n
  {
    var num := Itoa(n);
    var pad := Spaces(if |num| < 4 then 5 - |num| else 1);
    SpacesAreBlank(if |num| < 4 then 5 - |num| else 1);
    var line := NumberColumn(n) + text;
    assert line == num + (pad + text);
    assert IsDigit(line[0]) && TrimLeft(line) == line;
    DigitsEndAt(num, pad + text);
    assert line[..|num|] == num;
    DigitsEndAt(num, "");
    assert num + "" == num && num[..|num|] == num;
    AtoiItoa(n);
  }

  /** What is in front of a text and lacks the key's first character changes nothing. */
  lemma {:induction false} ContainsBehind(front: string, text: string, key: string)
    requires key != "" && key[0] !in front
    ensures Contains(front + text, key) <==> Contains(text, key)
  {
    var whole := front + text;
    if Contains(text, key) {
      var i :| 0 <= i <= |text| - |key| && key <= text[i..];
      assert whole[|front| + i..] == text[i..];
    }
    forall i | 0 <= i < |front| ensures !(key <= whole[i..]) {
      assert whole[i..][0] == front[i];
    }
    if Contains(whole, key) {
      var i :| 0 <= i <= |whole| - |key| && key <= whole[i..];
      assert whole[i..] == text[i - |front|..];
    }
  }

  lemma {:induction false} LinePicked(n: nat, e: Entry, instance: string)
    requires 1 <= n <= INT64_MAX
    ensures Pick(NumberColumn(n) + EntryText(e), instance) == if Mentions(e, instance) then [n as int] else []
  {
    var column := NumberColumn(n);
    SpacesAreBlank(if |Itoa(n)| < 4 then 5 - |Itoa(n)| else 1);
    assert forall i :: 0 <= i < |column| ==> column[i] == ' ' || IsDigit(column[i]);
    assert Key(instance)[0] == 'h';
    ContainsBehind(column, EntryText(e), Key(instance));
    LineNumberRead(n, EntryText(e));
  }

  /** A line without a colon mentions nobody. */
  lemma {:induction false} NoColonNoPick(line: string, instance: string)
    requires ':' !in line
    ensures Pick(line, instance) == []
  {
    var key := Key(instance);
    assert key[|key| - 1] == ':';
    forall i | 0 <= i <= |line| - |key| ensures !(key <= line[i..]) {
      assert line[i..][|key| - 1] == line[i + |key| - 1];
    }
  }

  /** The last line of the entries' lines, and what is picked from it. */
  lemma {:induction false} LastLine(es: seq<Entry>, instance: string) returns (line: string, picks: seq<int>)
    requires 0 < |es| <= INT64_MAX
    ensures Numbered(es) == Numbered(es[..|es| - 1]) + [line] && Pick(line, instance) == picks
    ensures picks == if es[|es| - 1] in Hits(instance) then [|es|] else []
  {
    line := NumberColumn(|es|) + EntryText(es[|es| - 1]);
    LinePicked(|es|, es[|es| - 1], instance);
    picks := Pick(line, instance);
  }

  lemma {:induction false} PickedAfter(front: seq<string>, lines: seq<string>, line: string, instance: string, picks: seq<int>)
    requires Pick(line, instance) == picks
    ensures Picked(front + (lines + [line]), instance) == Picked(front + lines, instance) + picks
  {
    assert front + (lines + [line]) == (front + lines) + [line];
    PickedSnoc(front + lines, line, instance);
  }

  lemma {:induction false} NumberedPicked(front: seq<string>, es: seq<Entry>, instance: string)
    requires Picked(front, instance) == [] && |es| <= INT64_MAX
    ensures Picked(front + Numbered(es), instance) == Positions(es, Hits(instance))
  {
    if es == [] {
      assert front + Numbered(es) == front;
    } else {
      var init := es[..|es| - 1];
      NumberedPicked(front, init, instance);
      var line, picks := LastLine(es, instance);
      PickedAfter(front, Numbered(init), line, instance, picks);
      assert Positions(es, Hits(instance)) == Positions(init, Hits(instance)) + picks;
    }
  }

  lemma {:induction false} PickedSnoc(lines: seq<string>, line: string, instance: string)
    ensures Picked(lines + [line], instance) == Picked(lines, instance) + Pick(line, instance)
  {
    assert (lines + [line])[..|lines|] == lines;
  }

  /** The numbers read off the listing are the places in the chain. */
  lemma {:induction false} ListingPicked(chain: string, references: nat, es: seq<Entry>, instance: string)
    requires ':' !in chain && |es| <= INT64_MAX
    ensures Picked(Listing(chain, references, es), instance) == Positions(es, Hits(instance))
  {
    var header, all := Header(chain, references), Listing(chain, references, es);
    HeaderUnpicked(chain, references, instance);
    NumberedPicked(header, es, instance);
    assert all[..|all| - 1] == header + Numbered(es);
    NoColonNoPick("", instance);
  }

  lemma {:induction false} NoColonInHeader(chain: string, references: nat)
    requires ':' !in chain
    ensures ':' !in Header(chain, references)[0] && ':' !in Header(chain, references)[1]
  {
    SpacesAreBlank(5);
    SpacesAreBlank(15);
    assert ':' !in "num  target" && ':' !in "prot opt source" && ':' !in "destination";
    assert ':' !in "Chain " && ':' !in " references)" && ':' !in Itoa(references);
  }

  lemma {:induction false} HeaderUnpicked(chain: string, references: nat, instance: string)
    requires ':' !in chain
    ensures Picked(Header(chain, references), instance) == []
  {
    var header := Header(chain, references);
    NoColonInHeader(chain, references);
    NoColonNoPick(header[0], instance);
    NoColonNoPick(header[1], instance);
    assert header[..1] == [header[0]] && header[..1][..0] == [];
    assert Picked(header[..1], instance) == Picked(header[..1][..0], instance) + Pick(header[0], instance);
    assert Picked(header, instance) == Picked(header[..1], instance) + Pick(header[1], instance);
  }

  // ---- deleting last to first ----

  function Without(es: seq<Entry>, k: nat): seq<Entry>
    requires k < |es|
  {
    es[..k] + es[k + 1..]
  }

  /** The entries that stay, and those that go. */
  ghost function Kept(es: seq<Entry>, hits: iset<Entry>): seq<Entry> {
    if es == [] then [] else Kept(es[..|es| - 1], hits) + if es[|es| - 1] in hits then [] else [es[|es| - 1]]
  }

  ghost function Taken(es: seq<Entry>, hits: iset<Entry>): seq<Entry> {
    if es == [] then [] else Taken(es[..|es| - 1], hits) + if es[|es| - 1] in hits then [es[|es| - 1]] else []
  }

  /** "iptables -D <chain> <n>" for each number, last to first; None if a number
      is not one of the chain. */
  function DeleteAll(es: seq<Entry>, numbers: seq<int>): Option<seq<Entry>>
    decreases |numbers|
  {
    if numbers == [] then Some(es)
    else
      var n := numbers[|numbers| - 1];
      if 1 <= n <= |es| then DeleteAll(Without(es, n - 1), numbers[..|numbers| - 1]) else None
  }

  lemma {:induction false} DeletionBefore(es: seq<Entry>, tail: seq<Entry>, hits: iset<Entry>)
    ensures DeleteAll(es + tail, Positions(es, hits)) == Some(Kept(es, hits) + tail)
  {
    if es == [] {
      assert es + tail == tail == Kept(es, hits) + tail;
    } else {
      var n := |es|;
      var e, init := es[n - 1], es[..n - 1];
      if e in hits {
        assert Without(es + tail, n - 1) == init + tail;
        DeleteStep(es + tail, Positions(init, hits), n);
        DeletionBefore(init, tail, hits);
        assert Kept(es, hits) == Kept(init, hits);
      } else {
        assert es + tail == init + ([e] + tail);
        assert Positions(es, hits) == Positions(init, hits);
        DeletionBefore(init, [e] + tail, hits);
        assert Kept(init, hits) + ([e] + tail) == Kept(es, hits) + tail;
      }
    }
  }

  lemma {:induction false} DeleteStep(es: seq<Entry>, numbers: seq<int>, n: int)
    requires 1 <= n <= |es|
    ensures DeleteAll(es, numbers + [n]) == DeleteAll(Without(es, n - 1), numbers)
  {
    assert (numbers + [n])[..|numbers|] == numbers;
  }

  /** Deleting the collected numbers last to first is filtering the chain. */
  lemma {:induction false} DeletionIsFiltering(es: seq<Entry>, hits: iset<Entry>)
    ensures DeleteAll(es, Positions(es, hits)) == Some(Kept(es, hits))
  {
    assert es + [] == es && Kept(es, hits) + [] == Kept(es, hits);
    DeletionBefore(es, [], hits);
  }

  lemma {:induction false} KeptConcat(a: seq<Entry>, b: seq<Entry>, hits: iset<Entry>)
    ensures Kept(a + b, hits) == Kept(a, hits) + Kept(b, hits)
    ensures Taken(a + b, hits) == Taken(a, hits) + Taken(b, hits)
  {
    if b == [] {
      assert a + b == a;
    } else {
      assert (a + b)[..|a + b| - 1] == a + b[..|b| - 1];
      KeptConcat(a, b[..|b| - 1], hits);
    }
  }

  lemma {:induction false} KeptOne(e: Entry, hits: iset<Entry>)
    ensures Kept([e], hits) == if e in hits then [] else [e]
  {
    assert [e][..0] == [];
    assert Kept([e], hits) == Kept([e][..0], hits) + if e in hits then [] else [e];
  }

  lemma {:induction false} KeptWithout(es: seq<Entry>, k: nat, hits: iset<Entry>)
    requires k < |es| && es[k] in hits
    ensures Kept(Without(es, k), hits) == Kept(es, hits)
  {
    var a, e, b := es[..k], es[k], es[k + 1..];
    assert es == a + ([e] + b);
    KeptConcat(a, [e] + b, hits);
    KeptConcat([e], b, hits);
    KeptOne(e, hits);
    KeptConcat(a, b, hits);
    assert [] + Kept(b, hits) == Kept(b, hits);
  }

  // ---- whose rule a text is ----

  /** No colon right after an "s", so "hospitus:" is not in the text. */
  ghost predicate NoMark(s: string) { forall i :: 0 < i < |s| && s[i] == ':' ==> s[i - 1] != 's' }

  predicate EndsWith(s: string, end: string) { |end| <= |s| && s[|s| - |end|..] == end }

  /** The ways a rule can be taken for another instance's: its own instance's
      name ends in "hospitus" and its ID begins with the other's name and a colon,
      or the other's mark stands in its ID or in what is printed behind it. */
  ghost predicate Mistaken(r: Rule, instance: string) {
    (EndsWith(r.instance, "hospitus") && instance + ":" <= Rest(r)) || Contains(Rest(r), Key(instance))
  }

  lemma {:induction false} NoColonInName(name: string)
    requires ValidInstanceName(name)
    ensures ':' !in name
  {
  }

  /** At a place where the key stands, "s:" stands eight characters on. */
  lemma {:induction false} KeyMark(text: string, instance: string, i: nat)
    requires i <= |text| && Key(instance) <= text[i..]
    ensures i + 8 < |text| && text[i + 7] == 's' && text[i + 8] == ':'
    ensures "hospitus" <= text[i..] && instance + ":" <= text[i + 9..]
  {
    var key, mark := Key(instance), "hospitus:";
    assert key[7] == mark[7] && key[8] == mark[8];
    assert text[i..][7] == text[i + 7] && text[i..][8] == text[i + 8];
    assert "hospitus" <= mark;
    var rest := instance + ":";
    assert key == mark + rest;
    forall k | 0 <= k < |rest| ensures text[i + 9..][k] == rest[k] {
      assert text[i..][9 + k] == key[9 + k];
    }
  }

  /** Up to its ID, "s:" stands in a rule at its mark, and maybe after its instance. */
  lemma {:induction false} MarksOfRule(r: Rule, k: nat)
    requires ValidInstanceName(r.instance) && NoMark(r.before) && 0 < k < |RuleText(r)|
    ensures RuleText(r)[k] == ':' && RuleText(r)[k - 1] == 's' ==>
              k == |r.before| + 8 || k >= |r.before| + 9 + |r.instance|
  {
    var mark, text := "hospitus:", RuleText(r);
    var b, n := |r.before|, |r.before| + 9 + |r.instance|;
    NoColonInName(r.instance);
    if k < b {
      assert text[k] == r.before[k] && text[k - 1] == r.before[k - 1];
    } else if k < b + 9 {
      assert text[k] == mark[k - b];
    } else if k < n {
      assert text[k] == r.instance[k - b - 9];
    }
  }

  lemma {:induction false} NamesBeforeColon(a: string, b: string, rest: string)
    requires ':' !in a && ':' !in b && a + ":" <= b + (":" + rest)
    ensures a == b
  {
    var s := b + (":" + rest);
    var tail := s[|a| + 1..];
    assert s == a + [':'] + tail && s == b + [':'] + rest;
    IndexOfAfter(a, ':', tail);
    IndexOfAfter(b, ':', rest);
    assert |a| == |b|;
    assert s[..|a|] == a && s[..|b|] == b;
  }

  lemma {:induction false} OwnMention(r: Rule, instance: string)
    ensures r.instance == instance ==> Mentions(Ours(r), instance)
  {
    if r.instance == instance {
      var text, i := RuleText(r), |r.before|;
      assert text[i..] == Key(instance) + Rest(r);
      assert 0 <= i <= |text| - |Key(instance)| && Key(instance) <= text[i..];
    }
  }

  lemma {:induction false} MistakenMention(r: Rule, instance: string)
    ensures Mistaken(r, instance) ==> Mentions(Ours(r), instance)
  {
    var text, rest, n := RuleText(r), Rest(r), |r.before| + 9 + |r.instance|;
    if EndsWith(r.instance, "hospitus") && instance + ":" <= rest {
      var i := n - 8;
      var end := r.instance[|r.instance| - 8..];
      assert text[i..] == end + (":" + rest);
      assert end + ":" == "hospitus:";
      assert rest == (instance + ":") + rest[|instance| + 1..];
      assert text[i..] == Key(instance) + rest[|instance| + 1..];
      assert 0 <= i <= |text| - |Key(instance)| && Key(instance) <= text[i..];
    } else if Contains(rest, Key(instance)) {
      var i :| 0 <= i <= |rest| - |Key(instance)| && Key(instance) <= rest[i..];
      assert text[n + 1 + i..] == rest[i..];
    }
  }

  /** Whatever its ID, a rule is taken for an instance's exactly when it is that
      instance's or is mistaken for it. */
  lemma {:induction false} MentionsIff(r: Rule, instance: string)
    requires ValidInstanceName(r.instance) && NoMark(r.before) && ValidInstanceName(instance)
    ensures Mentions(Ours(r), instance) <==> r.instance == instance || Mistaken(r, instance)
  {
    OwnMention(r, instance);
    MistakenMention(r, instance);
    if Mentions(Ours(r), instance) {
      var text := RuleText(r);
      var i :| 0 <= i <= |text| - |Key(instance)| && Key(instance) <= text[i..];
      MentionAt(r, instance, i);
    }
  }

  lemma {:induction false} EndOfInstance(r: Rule, i: nat)
    requires i + 8 == |r.before| + 9 + |r.instance| && "hospitus" <= RuleText(r)[i..]
    ensures EndsWith(r.instance, "hospitus")
  {
    var word, text, b := "hospitus", RuleText(r), |r.before|;
    assert forall k :: 0 <= k < 8 ==> text[i..][k] == text[i + k] == word[k] != ':';
    assert text[b + 8] == ':' by { assert "hospitus:"[8] == ':'; }
    assert i > b + 8;
    assert r.instance[|r.instance| - 8..] == text[i..i + 8] == word;
  }

  /** A word without a colon that ends past one begins past it. */
  lemma {:induction false} PastColon(text: string, i: nat, n: nat)
    requires i + 8 <= |text| && "hospitus" <= text[i..] && n < i + 8 && n < |text| && text[n] == ':'
    ensures i > n
  {
    var word := "hospitus";
    forall j | i <= j < i + 8 ensures text[j] != ':' {
      assert text[i..][j - i] == text[j] == word[j - i];
    }
  }

  lemma {:induction false} MentionAt(r: Rule, instance: string, i: nat)
    requires ValidInstanceName(r.instance) && NoMark(r.before) && ValidInstanceName(instance)
    requires i <= |RuleText(r)| && Key(instance) <= RuleText(r)[i..]
    ensures r.instance == instance || Mistaken(r, instance)
  {
    var text, n := RuleText(r), |r.before| + 9 + |r.instance|;
    KeyMark(text, instance, i);
    MarksOfRule(r, i + 8);
    NoColonInName(r.instance);
    NoColonInName(instance);
    if i == |r.before| {
      assert text[i + 9..] == r.instance + (":" + Rest(r));
      NamesBeforeColon(instance, r.instance, Rest(r));
    } else if i + 8 == n {
      assert text[i + 9..] == Rest(r);
      EndOfInstance(r, i);
    } else {
      assert text[n] == ':';
      PastColon(text, i, n);
      assert text[i..] == Rest(r)[i - n - 1..];
    }
  }

  // ---- the IDs the firewall manager makes ----

  /** What iptables prints around the comment: no mark, and a space behind it. */
  ghost predicate Printed(r: Rule) {
    NoMark(r.before) && NoMark(r.after) && (r.after == "" || r.after[0] == ' ')
  }

  lemma {:induction false} NoMarkNoKey(s: string, instance: string)
    requires NoMark(s)
    ensures !Contains(s, Key(instance))
  {
    var key, mark := Key(instance), "hospitus:";
    assert key[7] == mark[7] == 's' && key[8] == mark[8] == ':';
    forall i | 0 <= i <= |s| - |key| ensures !(key <= s[i..]) {
      assert s[i..][7] == s[i + 7] && s[i..][8] == s[i + 8];
    }
  }

  lemma {:induction false} NoMarkConcat(a: string, b: string)
    requires NoMark(a) && NoMark(b) && (b == "" || b[0] != ':')
    ensures NoMark(a + b)
  {
    forall i | 0 < i < |a + b| && (a + b)[i] == ':' ensures (a + b)[i - 1] != 's' {
      if i > |a| { assert (a + b)[i] == b[i - |a|] && (a + b)[i - 1] == b[i - |a| - 1]; }
    }
  }

  /** The characters of what net.ParseIP accepts. */
  predicate AddressText(s: string) {
    forall i :: 0 <= i < |s| ==> IsDigit(s[i]) || 'a' <= s[i] <= 'f' || 'A' <= s[i] <= 'F' || s[i] == ':' || s[i] == '.'
  }

  lemma {:induction false} NoSlashMark(s: string)
    requires NoMark(s)
    ensures NoMark("/" + s)
  {
    var t := "/" + s;
    forall i | 0 < i < |t| && t[i] == ':' ensures t[i - 1] != 's' {
      assert t[i] == s[i - 1] && (i > 1 ==> t[i - 1] == s[i - 2]);
    }
  }

  lemma {:induction false} SlashedNoMark(fields: seq<string>)
    requires forall i :: 0 <= i < |fields| ==> NoMark(fields[i])
    ensures NoMark(Nftables.Slashed(fields))
  {
    if |fields| > 1 {
      SlashedNoMark(fields[1..]);
      var rest := Nftables.Slashed(fields[1..]);
      NoSlashMark(rest);
      NoMarkConcat(fields[0], "/" + rest);
    }
  }

  lemma {:induction false} FieldsNoMark(m: Nftables.PortMapping)
    requires Nftables.Valid(m) && AddressText(m.targetIP)
    ensures forall i :: 0 <= i < |Nftables.IdFields(m)| ==> NoMark(Nftables.IdFields(m)[i])
  {
  }

  lemma {:induction false} ManagerIdPrefix(m: Nftables.PortMapping)
    ensures m.instance + "/" <= Nftables.GenerateID(m)
  {
    var fields := Nftables.IdFields(m);
    assert Nftables.GenerateID(m) == m.instance + ("/" + Nftables.Slashed(fields[1..]));
  }

  /** A name and a colon do not begin what begins with a name and a slash. */
  lemma {:induction false} SlashBeforeColon(name: string, other: string, rest: string)
    requires ValidInstanceName(name) && ValidInstanceName(other) && name + "/" <= rest
    ensures !(other + ":" <= rest)
  {
    var a, b := other + ":", name + "/";
    assert a[|other|] == ':' && b[|name|] == '/';
    if |other| < |name| {
      assert b[|other|] == name[|other|] == rest[|other|];
    } else if |other| > |name| {
      assert a[|name|] == other[|name|];
    }
  }

  /** A port mapping with the ID the manager makes is taken for an instance's
      exactly when it is that instance's. */
  lemma {:induction false} GeneratedNotMistaken(m: Nftables.PortMapping, r: Rule, other: string)
    requires Nftables.Valid(m) && AddressText(m.targetIP) && ValidInstanceName(other)
    requires r.instance == m.instance && r.id == Nftables.GenerateID(m) && Printed(r)
    ensures Mentions(Ours(r), other) <==> r.instance == other
  {
    FieldsNoMark(m);
    SlashedNoMark(Nftables.IdFields(m));
    NoMarkConcat(r.id, r.after);
    NoMarkNoKey(Rest(r), other);
    ManagerIdPrefix(m);
    assert r.instance + "/" <= Rest(r);
    SlashBeforeColon(r.instance, other, Rest(r));
    MentionsIff(r, other);
  }

  function SlugChar(c: char): char { if c == '/' then '_' else if c == '.' || c == ':' then '-' else c }

  function Slug(s: string): (r: string)
    ensures |r| == |s| && ':' !in r
  {
    seq(|s|, i requires 0 <= i < |s| => SlugChar(s[i]))
  }

  /** natRuleID: one NAT rule of an instance for one network. */
  function NatID(instance: string, network: string): string { instance + "-nat-" + Slug(network) }

  /** Likewise a NAT rule with the manager's ID, whatever its network. */
  lemma {:induction false} NatNotMistaken(network: string, r: Rule, other: string)
    requires ValidInstanceName(r.instance) && ValidInstanceName(other)
    requires r.id == NatID(r.instance, network) && Printed(r)
    ensures Mentions(Ours(r), other) <==> r.instance == other
  {
    NoColonInName(r.instance);
    NoColonInName(other);
    assert ':' !in "-nat-";
    assert ':' !in r.id;
    NoMarkConcat(r.id, r.after);
    NoMarkNoKey(Rest(r), other);
    ColonBehindSpace(r.id, r.after, other);
    MentionsIff(r, other);
  }

  lemma {:induction false} ColonBehindSpace(id: string, after: string, other: string)
    requires ':' !in id && (after == "" || after[0] == ' ') && ValidInstanceName(other)
    ensures !(other + ":" <= id + after)
  {
    var a, rest := other + ":", id + after;
    assert a[|other|] == ':';
    if |other| < |id| {
      assert rest[|other|] == id[|other|];
    } else if after != "" {
      assert rest[|id|] == ' ';
      assert |other| > |id| ==> a[|id|] == other[|id|];
    }
  }

  /** A chosen ID can be taken for another instance's mark, even one that begins
      as the manager's do. */
  lemma {:induction false} ChosenIdIsMisread(front: string)
    requires front == "" || front == "db/"
    ensures Mentions(Ours(Rule("db", front + "hospitus:web:" + "1", "", "", true)), "web")
  {
    var r := Rule("db", front + "hospitus:web:" + "1", "", "", true);
    var key := Key("web");
    assert key == "hospitus:web:";
    assert Rest(r)[|front|..] == key + "1";
    assert 0 <= |front| <= |Rest(r)| - |key| && key <= Rest(r)[|front|..];
    MistakenMention(r, "web");
  }

  // ---- applying a rule set ----

  function EntriesOf(rules: seq<Rule>): seq<Entry> {
    if rules == [] then [] else EntriesOf(rules[..|rules| - 1]) + [Ours(rules[|rules| - 1])]
  }

  predicate AllValid(rules: seq<Rule>) { forall i :: 0 <= i < |rules| ==> rules[i].valid }

  /** How many commands it takes to replace an instance's rules in a chain: the
      listing, a deletion for each rule found, an addition for each new rule. */
  ghost function Commands(es: seq<Entry>, instance: string, rules: seq<Rule>): nat {
    1 + |Positions(es, Hits(instance))| + |rules|
  }

  /** What a successful ApplyRules makes of a chain. */
  ghost function Applied(es: seq<Entry>, hits: iset<Entry>, added: seq<Entry>): seq<Entry> {
    Kept(es, hits) + added
  }

  ghost predicate AllHit(es: seq<Entry>, hits: iset<Entry>) { forall i :: 0 <= i < |es| ==> es[i] in hits }

  lemma {:induction false} NothingToKeep(es: seq<Entry>, hits: iset<Entry>)
    ensures Kept(es, hits) == [] <==> AllHit(es, hits)
    ensures Taken(es, hits) == es <==> AllHit(es, hits)
    ensures |Taken(es, hits)| + |Kept(es, hits)| == |es|
  {
    if es != [] {
      var init, e := es[..|es| - 1], es[|es| - 1];
      NothingToKeep(init, hits);
      assert es == init + [e];
      assert AllHit(es, hits) <==> AllHit(init, hits) && e in hits;
    }
  }

  lemma {:induction false} KeptAgain(es: seq<Entry>, hits: iset<Entry>)
    ensures Kept(Kept(es, hits), hits) == Kept(es, hits)
    ensures Taken(Kept(es, hits), hits) == []
  {
    if es != [] {
      var init, e := es[..|es| - 1], es[|es| - 1];
      KeptAgain(init, hits);
      if e !in hits {
        KeptConcat(Kept(init, hits), [e], hits);
        KeptOne(e, hits);
        TakenOne(e, hits);
      } else {
        assert Kept(es, hits) == Kept(init, hits);
      }
    }
  }

  /** The rules that count as the instance's are then the rule set's and no
      others, and the rest of the chain is as it was, exactly when every rule of
      the set counts as the instance's; applying the set again changes nothing. */
  lemma {:induction false} AppliedIsExactIff(es: seq<Entry>, hits: iset<Entry>, added: seq<Entry>)
    ensures Taken(Applied(es, hits, added), hits) == added <==> AllHit(added, hits)
    ensures Kept(Applied(es, hits, added), hits) == Kept(es, hits) <==> AllHit(added, hits)
    ensures Applied(Applied(es, hits, added), hits, added) == Applied(es, hits, added) <==> AllHit(added, hits)
  {
    KeptConcat(Kept(es, hits), added, hits);
    KeptAgain(es, hits);
    NothingToKeep(added, hits);
    assert [] + Taken(added, hits) == Taken(added, hits);
    assert |Kept(added, hits)| == 0 <==> Kept(added, hits) == [];
    var twice, once := Applied(Applied(es, hits, added), hits, added), Applied(es, hits, added);
    assert |twice| == |once| + |Kept(added, hits)|;
  }

  ghost function OwnedBy(instance: string): iset<Entry> { iset e: Entry | e.Ours? && e.rule.instance == instance }

  ghost predicate Spared(es: seq<Entry>, hits: iset<Entry>, owned: iset<Entry>) {
    forall i :: 0 <= i < |es| && es[i] in owned ==> es[i] !in hits
  }

  lemma {:induction false} TakenOfKept(es: seq<Entry>, hits: iset<Entry>, owned: iset<Entry>)
    ensures |Taken(Kept(es, hits), owned)| <= |Taken(es, owned)|
    ensures Taken(Kept(es, hits), owned) == Taken(es, owned) <==> Spared(es, hits, owned)
  {
    if es != [] {
      var init, e := es[..|es| - 1], es[|es| - 1];
      TakenOfKept(init, hits, owned);
      assert es == init + [e];
      assert Spared(es, hits, owned) <==> Spared(init, hits, owned) && (e in owned ==> e !in hits);
      if e in hits {
        assert Kept(es, hits) == Kept(init, hits);
        assert e !in owned ==> Taken(es, owned) == Taken(init, owned);
      } else {
        KeptConcat(Kept(init, hits), [e], owned);
        TakenOne(e, owned);
        Cancel(Taken(Kept(init, hits), owned), Taken(init, owned), if e in owned then [e] else []);
      }
    }
  }

  lemma {:induction false} Cancel(a: seq<Entry>, b: seq<Entry>, c: seq<Entry>)
    ensures a + c == b + c <==> a == b
  {
    if a + c == b + c {
      assert |a + c| == |b + c|;
      assert a == (a + c)[..|a|] && b == (b + c)[..|a|];
    }
  }

  lemma {:induction false} TakenOne(e: Entry, hits: iset<Entry>)
    ensures Taken([e], hits) == if e in hits then [e] else []
  {
    assert [e][..0] == [];
    assert Taken([e], hits) == Taken([e][..0], hits) + if e in hits then [e] else [];
  }

  /** Applying one instance's rule set leaves another instance's rules as they
      were exactly when none of those is mistaken, whatever else is in the chain. */
  lemma {:induction false} OtherUntouchedIff(es: seq<Entry>, added: seq<Entry>, instance: string, other: string)
    requires ValidInstanceName(instance) && ValidInstanceName(other) && instance != other
    requires forall i :: 0 <= i < |es| && es[i] in OwnedBy(other) ==> NoMark(es[i].rule.before)
    requires AllHit(added, OwnedBy(instance))
    ensures Taken(Applied(es, Hits(instance), added), OwnedBy(other)) == Taken(es, OwnedBy(other))
       <==> forall i :: 0 <= i < |es| && es[i] in OwnedBy(other) ==> !Mistaken(es[i].rule, instance)
  {
    var hits, owned := Hits(instance), OwnedBy(other);
    KeptConcat(Kept(es, hits), added, owned);
    NoneTaken(added, owned);
    TakenOfKept(es, hits, owned);
    assert Taken(Applied(es, hits, added), owned) == Taken(Kept(es, hits), owned);
    forall i | 0 <= i < |es| && es[i] in owned ensures es[i] in hits <==> Mistaken(es[i].rule, instance) {
      MentionsIff(es[i].rule, instance);
      assert es[i] == Ours(es[i].rule);
    }
  }

  /** A rule the firewall manager made, a port mapping or a NAT rule. */
  ghost predicate ManagerMade(r: Rule) {
    && ValidInstanceName(r.instance) && Printed(r)
    && ((exists m :: Nftables.Valid(m) && AddressText(m.targetIP) && m.instance == r.instance && r.id == Nftables.GenerateID(m))
        || exists network :: r.id == NatID(r.instance, network))
  }

  lemma {:induction false} ManagerMadeMentions(r: Rule, other: string)
    requires ManagerMade(r) && ValidInstanceName(other)
    ensures Mentions(Ours(r), other) <==> r.instance == other
  {
    if exists network :: r.id == NatID(r.instance, network) {
      var network :| r.id == NatID(r.instance, network);
      NatNotMistaken(network, r, other);
    } else {
      var m :| Nftables.Valid(m) && AddressText(m.targetIP) && m.instance == r.instance && r.id == Nftables.GenerateID(m);
      GeneratedNotMistaken(m, r, other);
    }
  }

  /** So an instance whose rules the manager made keeps them all, in order,
      whatever rule set is applied for another. */
  lemma {:induction false} ManagerRulesUntouched(es: seq<Entry>, added: seq<Entry>, instance: string, other: string)
    requires ValidInstanceName(instance) && ValidInstanceName(other) && instance != other
    requires forall i :: 0 <= i < |es| && es[i] in OwnedBy(other) ==> ManagerMade(es[i].rule)
    requires AllHit(added, OwnedBy(instance))
    ensures Taken(Applied(es, Hits(instance), added), OwnedBy(other)) == Taken(es, OwnedBy(other))
  {
    forall i | 0 <= i < |es| && es[i] in OwnedBy(other) ensures !Mistaken(es[i].rule, instance) {
      ManagerMadeMentions(es[i].rule, instance);
      MentionsIff(es[i].rule, instance);
    }
    OtherUntouchedIff(es, added, instance, other);
  }

  lemma {:induction false} NoneTaken(es: seq<Entry>, hits: iset<Entry>)
    requires forall i :: 0 <= i < |es| ==> es[i] !in hits
    ensures Taken(es, hits) == []
  {
    if es != [] { NoneTaken(es[..|es| - 1], hits); }
  }

  lemma {:induction false} SetHits(rules: seq<Rule>, instance: string)
    requires forall i :: 0 <= i < |rules| ==> rules[i].instance == instance
    ensures AllHit(EntriesOf(rules), Hits(instance)) && AllHit(EntriesOf(rules), OwnedBy(instance))
  {
    if rules != [] {
      SetHits(rules[..|rules| - 1], instance);
      OwnMention(rules[|rules| - 1], instance);
    }
  }

  // ---- the backend ----

  datatype Chain = Prerouting | Postrouting

  function ChainName(c: Chain): string {
    match c
    case Prerouting => "HOSPITUS_PREROUTING"
    case Postrouting => "HOSPITUS_POSTROUTING"
  }

  function OtherChain(c: Chain): Chain { if c.Prerouting? then Postrouting else Prerouting }

  /** The nat table, and how many more commands will work: the backend gives up
      at the first that fails. */
  class NatTable {
    var pre: seq<Entry>
    var post: seq<Entry>
    var works: nat

    function Rules(c: Chain): seq<Entry>
      reads this
    {
      if c.Prerouting? then pre else post
    }

    method Run() returns (ok: bool)
      modifies this`works
      ensures ok <==> old(works) > 0
      ensures works == if ok then old(works) - 1 else 0
    {
      ok := works > 0;
      if ok { works := works - 1; }
    }

    method Store(c: Chain, es: seq<Entry>)
      modifies this`pre, this`post
      ensures Rules(c) == es && Rules(OtherChain(c)) == old(Rules(OtherChain(c)))
    {
      if c.Prerouting? { pre := es; } else { post := es; }
    }

    /** iptables -t nat -D <chain> <n> */
    method DeleteNumber(c: Chain, n: int) returns (ok: bool)
      modifies this
      ensures ok <==> old(works) > 0 && 1 <= n <= |old(Rules(c))|
      ensures Rules(c) == if ok then Without(old(Rules(c)), n - 1) else old(Rules(c))
      ensures Rules(OtherChain(c)) == old(Rules(OtherChain(c)))
      ensures ok ==> works == old(works) - 1
    {
      ok := Run();
      var es := Rules(c);
      if !(1 <= n <= |es|) { ok := false; }
      if ok { Store(c, Without(es, n - 1)); }
    }

    method CollectNumbers(lines: seq<string>, instance: string) returns (numbers: seq<int>)
      ensures numbers == Picked(lines, instance)
    {
      numbers := [];
      for i := 0 to |lines|
        invariant numbers == Picked(lines[..i], instance)
      {
        PickedSnoc(lines[..i], lines[i], instance);
        assert lines[..i + 1] == lines[..i] + [lines[i]];
        if Contains(lines[i], Key(instance)) {
          var num := ScanInt(FirstField(lines[i]));
          if num > 0 { numbers := numbers + [num]; }
        }
      }
      assert lines[..|lines|] == lines;
    }

    /** The second loop of removeInstanceRulesFromChain. */
    method DeleteNumbers(c: Chain, numbers: seq<int>, ghost hits: iset<Entry>) returns (ok: bool)
      requires InOrder(numbers, Rules(c), hits)
      modifies this
      ensures ok <==> old(works) >= |numbers|
      ensures ok ==> Underway([], Rules(c), numbers, old(Rules(c)), hits) && works == old(works) - |numbers|
      ensures Kept(Rules(c), hits) == Kept(old(Rules(c)), hits)
      ensures Rules(OtherChain(c)) == old(Rules(OtherChain(c)))
    {
      ok := true;
      var j := |numbers|;
      assert numbers[..j] == numbers;
      while j > 0
        invariant 0 <= j <= |numbers|
        invariant Underway(numbers[..j], Rules(c), numbers, old(Rules(c)), hits)
        invariant Rules(OtherChain(c)) == old(Rules(OtherChain(c)))
        invariant works + |numbers| - j == old(works) && ok
      {
        ghost var es := Rules(c);
        var n := numbers[j - 1];
        assert numbers[..j] == numbers[..j - 1] + [n];
        LastInRange(numbers[..j - 1], n, es, hits);
        ok := DeleteNumber(c, n);
        if !ok { return; }
        DeletedOne(numbers[..j - 1], n, es, numbers, old(Rules(c)), hits);
        j := j - 1;
      }
      assert numbers[..0] == [];
    }

    /** removeInstanceRulesFromChain: if every command works the chain is
        filtered, and however far it got nothing else was deleted. */
    method RemoveFromChain(c: Chain, instance: string, references: nat) returns (ok: bool)
      requires |Rules(c)| <= INT64_MAX
      modifies this
      ensures ok <==> old(works) > |Positions(old(Rules(c)), Hits(instance))|
      ensures ok ==> Rules(c) == Kept(old(Rules(c)), Hits(instance))
      ensures ok ==> works == old(works) - 1 - |Positions(old(Rules(c)), Hits(instance))|
      ensures Kept(Rules(c), Hits(instance)) == Kept(old(Rules(c)), Hits(instance))
      ensures Rules(OtherChain(c)) == old(Rules(OtherChain(c)))
    {
      ok := Run();
      if !ok { return; }
      var es := Rules(c);
      var numbers := CollectNumbers(Listing(ChainName(c), references, es), instance);
      NoColonInChain(c);
      ListingPicked(ChainName(c), references, es, instance);
      PositionsInOrder(es, Hits(instance));
      DeletionIsFiltering(es, Hits(instance));
      ok := DeleteNumbers(c, numbers, Hits(instance));
      assert ok ==> DeleteAll(Rules(c), []) == Some(Rules(c));
    }

    method RemoveAllRules(instance: string, references: nat) returns (ok: bool)
      requires |pre| <= INT64_MAX && |post| <= INT64_MAX
      modifies this
      ensures ok ==> pre == Kept(old(pre), Hits(instance)) && post == Kept(old(post), Hits(instance))
      ensures Kept(pre, Hits(instance)) == Kept(old(pre), Hits(instance))
      ensures Kept(post, Hits(instance)) == Kept(old(post), Hits(instance))
      ensures ok <==> old(works) >= Commands(old(pre), instance, []) + Commands(old(post), instance, [])
      ensures ok ==> works == old(works) - Commands(old(pre), instance, []) - Commands(old(post), instance, [])
    {
      ok := RemoveFromChain(Prerouting, instance, references);
      assert Rules(OtherChain(Prerouting)) == post && old(Rules(OtherChain(Prerouting))) == old(post);
      if !ok { return; }
      ok := RemoveFromChain(Postrouting, instance, references);
      assert Rules(OtherChain(Postrouting)) == pre;
    }

    /** AddNATRule and AddPortMapping: validate, then append. */
    method AddRule(c: Chain, r: Rule) returns (ok: bool)
      modifies this
      ensures ok <==> r.valid && old(works) > 0
      ensures ok ==> works == old(works) - 1
      ensures Rules(c) == if ok then old(Rules(c)) + [Ours(r)] else old(Rules(c))
      ensures Rules(OtherChain(c)) == old(Rules(OtherChain(c)))
    {
      if !r.valid { return false; }
      ok := Run();
      if ok { Store(c, Rules(c) + [Ours(r)]); }
    }

    /** One of ApplyRules' two loops. */
    method AddAll(c: Chain, rules: seq<Rule>, ghost hits: iset<Entry>) returns (ok: bool)
      modifies this
      ensures ok <==> AllValid(rules) && old(works) >= |rules|
      ensures ok ==> Rules(c) == old(Rules(c)) + EntriesOf(rules) && works == old(works) - |rules|
      ensures AllHit(EntriesOf(rules), hits) ==> Kept(Rules(c), hits) == Kept(old(Rules(c)), hits)
      ensures Rules(OtherChain(c)) == old(Rules(OtherChain(c)))
    {
      ok := true;
      assert old(Rules(c)) + [] == old(Rules(c));
      assert rules[..0] == [];
      for i := 0 to |rules|
        invariant Rules(c) == old(Rules(c)) + EntriesOf(rules[..i])
        invariant Rules(OtherChain(c)) == old(Rules(OtherChain(c)))
        invariant ok && works + i == old(works) && AllValid(rules[..i])
      {
        PrefixHit(old(Rules(c)), rules, i, hits);
        ok := AddRule(c, rules[i]);
        if !ok { return; }
        assert rules[..i + 1] == rules[..i] + [rules[i]];
      }
      assert rules[..|rules|] == rules;
      PrefixHit(old(Rules(c)), rules, |rules|, hits);
    }

    /** ApplyRules: on success both chains are the others' rules followed by the
        set's; on any outcome the others' rules stay, if the set's are all the
        instance's. */
    method ApplyRules(instance: string, natRules: seq<Rule>, mappings: seq<Rule>, references: nat) returns (ok: bool)
      requires |pre| <= INT64_MAX && |post| <= INT64_MAX
      modifies this
      ensures ok <==> AllValid(natRules) && AllValid(mappings) &&
                      old(works) >= Commands(old(pre), instance, mappings) + Commands(old(post), instance, natRules)
      ensures ok ==> pre == Applied(old(pre), Hits(instance), EntriesOf(mappings))
      ensures ok ==> post == Applied(old(post), Hits(instance), EntriesOf(natRules))
      ensures AllHit(EntriesOf(mappings), Hits(instance)) ==>
                Kept(pre, Hits(instance)) == Kept(old(pre), Hits(instance))
      ensures AllHit(EntriesOf(natRules), Hits(instance)) ==>
                Kept(post, Hits(instance)) == Kept(old(post), Hits(instance))
    {
      ok := RemoveAllRules(instance, references);
      if !ok { return; }
      KeptAgain(old(pre), Hits(instance));
      KeptAgain(old(post), Hits(instance));
      ok := AddAll(Postrouting, natRules, Hits(instance));
      assert Rules(OtherChain(Postrouting)) == pre;
      if !ok { return; }
      ok := AddAll(Prerouting, mappings, Hits(instance));
      assert Rules(OtherChain(Prerouting)) == post;
    }
  }

  lemma {:induction false} NoColonInChain(c: Chain)
    ensures ':' !in ChainName(c)
  {
  }

  lemma {:induction false} EntriesAt(rules: seq<Rule>)
    ensures |EntriesOf(rules)| == |rules|
    ensures forall i :: 0 <= i < |rules| ==> EntriesOf(rules)[i] == Ours(rules[i])
  {
    if rules != [] { EntriesAt(rules[..|rules| - 1]); }
  }

  lemma {:induction false} PrefixHit(es: seq<Entry>, rules: seq<Rule>, i: nat, hits: iset<Entry>)
    requires i <= |rules|
    ensures AllHit(EntriesOf(rules), hits) ==> Kept(es + EntriesOf(rules[..i]), hits) == Kept(es, hits)
  {
    if AllHit(EntriesOf(rules), hits) {
      var front := EntriesOf(rules[..i]);
      EntriesAt(rules);
      EntriesAt(rules[..i]);
      assert forall k :: 0 <= k < i ==> front[k] == EntriesOf(rules)[k];
      NothingToKeep(front, hits);
      KeptConcat(es, front, hits);
      assert Kept(es, hits) + [] == Kept(es, hits);
    }
  }

  /** The numbers still to go are in order, what was deleted so far is part of
      the whole deletion, and nothing else was lost. */
  ghost predicate Underway(p: seq<int>, es: seq<Entry>, numbers: seq<int>, before: seq<Entry>, hits: iset<Entry>) {
    && InOrder(p, es, hits)
    && DeleteAll(es, p) == DeleteAll(before, numbers)
    && Kept(es, hits) == Kept(before, hits)
  }

  lemma {:induction false} LastInRange(p: seq<int>, n: int, es: seq<Entry>, hits: iset<Entry>)
    requires InOrder(p + [n], es, hits)
    ensures 1 <= n <= |es| && es[n - 1] in hits
  {
    assert (p + [n])[|p|] == n;
  }

  lemma {:induction false} DeletedOne(p: seq<int>, n: int, es: seq<Entry>, numbers: seq<int>, before: seq<Entry>, hits: iset<Entry>)
    requires Underway(p + [n], es, numbers, before, hits)
    ensures 1 <= n <= |es| && Underway(p, Without(es, n - 1), numbers, before, hits)
  {
    LastInRange(p, n, es, hits);
    KeptWithout(es, n - 1, hits);
    DeleteStep(es, p, n);
    StillInOrder(p, n, es, hits);
  }

  lemma {:induction false} StillInOrder(p: seq<int>, n: int, es: seq<Entry>, hits: iset<Entry>)
    requires InOrder(p + [n], es, hits) && 1 <= n <= |es|
    ensures InOrder(p, Without(es, n - 1), hits)
  {
    var q := p + [n];
    forall i | 0 <= i < |p| ensures 1 <= p[i] < n && Without(es, n - 1)[p[i] - 1] in hits {
      assert q[i] == p[i] && q[|p|] == n;
    }
    forall i, j | 0 <= i < j < |p| ensures p[i] < p[j] {
      assert q[i] == p[i] && q[j] == p[j];
    }
  }
}
