/** nftables port mappings: the rule text AddPortMapping writes, and the
    regular expression ListRules reads it back with. The expression is run by a
    leftmost-first matcher: the earliest start, and there the first way that
    works, repetitions taking as much as they can. */
module Nftables {
  import opened Text

  datatype PortMapping = PortMapping(
    id: string, instance: string, provider: string, protocol: string, hostPort: int,
    targetIP: string, targetPort: int, hostInterface: string, description: string, active: bool)

  predicate NameChar(c: char) { IsAlnum(c) || c == '-' || c == '_' }

  predicate AllNameChars(s: string) { forall i :: 0 <= i < |s| ==> NameChar(s[i]) }

  /** validation.ValidateInterfaceName. */
  predicate ValidInterface(s: string) {
    0 < |s| <= 15 && IsAlnum(s[0]) && !IsDigit(s[0]) && AllNameChars(s)
  }

  /** validation.ValidateProviderName. */
  predicate ValidProvider(s: string) {
    0 < |s| <= 32 && 'a' <= s[0] <= 'z' &&
    forall i :: 0 <= i < |s| ==> IsDigit(s[i]) || 'a' <= s[i] <= 'z' || s[i] == '-'
  }

  predicate ValidPort(n: int) { 1 <= n <= 65535 }

  /** PortMapping.Validate, apart from what net.ParseIP says of the target. */
  predicate Valid(m: PortMapping) {
    && ValidInstanceName(m.instance)
    && (m.provider == "" || ValidProvider(m.provider))
    && (m.hostInterface == "" || ValidInterface(m.hostInterface))
    && (m.protocol == "tcp" || m.protocol == "udp")
    && ValidPort(m.hostPort) && ValidPort(m.targetPort)
    && m.targetIP != ""
  }

  // ---- printing ----

  function Hex(n: nat, width: nat): (s: string)
    ensures |s| == width && AllNameChars(s)
  {
    if width == 0 then "" else Hex(n / 16, width - 1) + [HexDigit(n % 16)]
  }

  function HexDigit(n: nat): char
    requires n < 16
  {
    if n < 10 then DigitChar(n) else ('a' as int + n - 10) as char
  }

  /** strconv.IsPrint, given which characters beyond ASCII are printable. */
  predicate Printable(c: char, wide: char -> bool) {
    if c as int < 0x80 then 0x20 <= c as int < 0x7f else wide(c)
  }

  predicate Plain(c: char, wide: char -> bool) { c != '"' && c != '\\' && Printable(c, wide) }

  predicate AllPlain(s: string, wide: char -> bool) { forall i :: 0 <= i < |s| ==> Plain(s[i], wide) }

  /** What follows the backslash: a quote only for a quote, a line break never. */
  function EscapeName(c: char): (s: string)
    ensures s != "" && '\n' !in s && ('"' in s ==> c == '"' && |s| == 1)
  {
    var n := c as int;
    if c == '"' || c == '\\' then [c]
    else if n == 7 then "a"
    else if n == 8 then "b"
    else if n == 12 then "f"
    else if n == 10 then "n"
    else if n == 13 then "r"
    else if n == 9 then "t"
    else if n == 11 then "v"
    else if n < 0x80 then "x" + Hex(n, 2)
    else if n < 0x1_0000 then "u" + Hex(n, 4)
    else "U" + Hex(n, 8)
  }

  /** One character under "%q". */
  function QuoteChar(c: char, wide: char -> bool): string {
    if Plain(c, wide) then [c] else ['\\'] + EscapeName(c)
  }

  function QuoteBody(s: string, wide: char -> bool): string {
    if s == "" then "" else QuoteChar(s[0], wide) + QuoteBody(s[1..], wide)
  }

  function Quoted(s: string, wide: char -> bool): string { "\"" + QuoteBody(s, wide) + "\"" }

  function TargetText(ip: string, port: string, comment: string): string {
    ip + (":" + (port + (" " + comment)))
  }

  function BareText(protocol: string, port: string, target: string): string {
    protocol + (" dport " + (port + (" dnat to " + target)))
  }

  /** fmt.Sprintf("%s dport %d dnat to %s:%d comment %q", ...), with the
      interface in front if there is one. */
  function RuleText(m: PortMapping, wide: char -> bool): string {
    var comment := "comment " + Quoted("hospitus:" + (m.instance + (":" + m.id)), wide);
    var rule := BareText(m.protocol, Itoa(m.hostPort), TargetText(m.targetIP, Itoa(m.targetPort), comment));
    if m.hostInterface != "" then "iifname " + (Quoted(m.hostInterface, wide) + (" " + rule)) else rule
  }

  // ---- the regular expression ----

  datatype Class = Digit | DigitOrDot | NotQuote | NotQuoteOrColon | AnyChar

  predicate InClass(c: char, k: Class) {
    match k
    case Digit => IsDigit(c)
    case DigitOrDot => IsDigit(c) || c == '.'
    case NotQuote => c != '"'
    case NotQuoteOrColon => c != '"' && c != ':'
    case AnyChar => c != '\n'
  }

  predicate AllIn(s: string, k: Class) { forall i :: 0 <= i < |s| ==> InClass(s[i], k) }

  /** Literal text, a captured choice, or a repetition that may be captured. */
  datatype Item = Lit(text: string) | Choice(texts: seq<string>) | Repeat(k: Class, least: nat, captured: bool)

  /** How far a repetition can reach. */
  function Reach(s: string, k: Class): (n: nat)
    ensures n <= |s| && AllIn(s[..n], k)
    ensures n < |s| ==> !InClass(s[n], k)
  {
    if s == "" || !InClass(s[0], k) then 0 else 1 + Reach(s[1..], k)
  }

  function Captured(text: string, rest: Option<seq<string>>): Option<seq<string>> {
    if rest.None? then None else Some([text] + rest.value)
  }

  /** The captures of the first way to match the items at the start of s. */
  function MatchAt(p: seq<Item>, s: string): Option<seq<string>>
    decreases |p|, 1, 0
  {
    if p == [] then Some([])
    else
      match p[0]
      case Lit(text) => if text <= s then MatchAt(p[1..], s[|text|..]) else None
      case Choice(texts) => MatchChoice(texts, p[1..], s)
      case Repeat(k, least, captured) => MatchRepeat(Reach(s, k), least, captured, p[1..], s)
  }

  function MatchChoice(texts: seq<string>, rest: seq<Item>, s: string): Option<seq<string>>
    decreases |rest| + 1, 0, |texts|
  {
    if texts == [] then None
    else
      var first := if texts[0] <= s then Captured(texts[0], MatchAt(rest, s[|texts[0]|..])) else None;
      if first.Some? then first else MatchChoice(texts[1..], rest, s)
  }

  /** Take n characters; if the rest then fails, give one back. */
  function MatchRepeat(n: nat, least: nat, captured: bool, rest: seq<Item>, s: string): Option<seq<string>>
    requires n <= |s|
    decreases |rest| + 1, 0, n
  {
    if n < least then None
    else
      var tail := MatchAt(rest, s[n..]);
      if tail.Some? then if captured then Captured(s[..n], tail) else tail
      else if n == 0 then None
      else MatchRepeat(n - 1, least, captured, rest, s)
  }

  /** ([^"]*)" */
  const IdPattern: seq<Item> := [Repeat(NotQuote, 0, true)] + ([Lit("\"")] + [])

  /** comment "hospitus:([^:"]+): and the ID */
  const CommentPattern: seq<Item> :=
    [Lit("comment \"hospitus:")] + ([Repeat(NotQuoteOrColon, 1, true)] + ([Lit(":")] + IdPattern))

  /** ([0-9.]+):(\d+) .* and the comment */
  const TargetPattern: seq<Item> :=
    [Repeat(DigitOrDot, 1, true)] + ([Lit(":")] + ([Repeat(Digit, 1, true)] +
    ([Lit(" ")] + ([Repeat(AnyChar, 0, false)] + CommentPattern))))

  /** (\d+) dnat to and the target */
  const PortPattern: seq<Item> := [Repeat(Digit, 1, true)] + ([Lit(" dnat to ")] + TargetPattern)

  /** (tcp|udp) dport and the ports */
  const BarePattern: seq<Item> := [Choice(["tcp", "udp"])] + ([Lit(" dport ")] + PortPattern)

  const InterfacePattern: seq<Item> :=
    [Lit("iifname \"")] + ([Repeat(NotQuote, 1, true)] + ([Lit("\" ")] + BarePattern))

  /** The optional interface group is tried first. */
  function MatchHere(s: string): Option<seq<string>> {
    var scoped := MatchAt(InterfacePattern, s);
    if scoped.Some? then scoped else Captured("", MatchAt(BarePattern, s))
  }

  /** FindStringSubmatch. */
  function Find(s: string): Option<seq<string>> {
    var here := MatchHere(s);
    if here.Some? then here else if s == "" then None else Find(s[1..])
  }

  function ParseMapping(line: string): Option<PortMapping> {
    var m := Find(line);
    if m.None? || |m.value| != 7 then None
    else
      var hostPort, targetPort := Atoi(m.value[2]), Atoi(m.value[4]);
      if hostPort.None? || targetPort.None? then None
      else
        Some(PortMapping(m.value[6], m.value[5], "", m.value[1], hostPort.value, m.value[3], targetPort.value,
                         m.value[0], "", true))
  }

  // ---- one step of the matcher ----

  lemma {:induction false} LitStep(text: string, rest: seq<Item>, tail: string)
    ensures MatchAt([Lit(text)] + rest, text + tail) == MatchAt(rest, tail)
  {
    assert ([Lit(text)] + rest)[1..] == rest;
    assert (text + tail)[|text|..] == tail;
  }

  lemma {:induction false} ReachOfWord(word: string, tail: string, k: Class)
    requires AllIn(word, k) && (tail != "" ==> !InClass(tail[0], k))
    ensures Reach(word + tail, k) == |word|
  {
    if word != "" {
      assert (word + tail)[1..] == word[1..] + tail;
      ReachOfWord(word[1..], tail, k);
    } else {
      assert word + tail == tail;
    }
  }

  /** A repetition takes the whole word in front of a character it cannot take. */
  lemma {:induction false} RepeatStep(k: Class, least: nat, rest: seq<Item>, word: string, tail: string)
    requires AllIn(word, k) && |word| >= least && (tail != "" ==> !InClass(tail[0], k))
    requires MatchAt(rest, tail).Some?
    ensures MatchAt([Repeat(k, least, true)] + rest, word + tail) == Captured(word, MatchAt(rest, tail))
  {
    ReachOfWord(word, tail, k);
    assert ([Repeat(k, least, true)] + rest)[1..] == rest;
    assert (word + tail)[|word|..] == tail && (word + tail)[..|word|] == word;
  }

  lemma {:induction false} ProtocolStep(rest: seq<Item>, word: string, tail: string)
    requires word == "tcp" || word == "udp"
    requires MatchAt(rest, tail).Some?
    ensures MatchAt([Choice(["tcp", "udp"])] + rest, word + tail) == Captured(word, MatchAt(rest, tail))
  {
    var texts, s := ["tcp", "udp"], word + tail;
    assert ([Choice(texts)] + rest)[1..] == rest;
    assert s[3..] == tail;
    assert texts[1..] == ["udp"];
    if word == "udp" {
      assert s[0] == 'u' && "tcp"[0] == 't';
      assert MatchChoice(texts, rest, s) == MatchChoice(["udp"], rest, s);
    }
  }

  /** Every way of taking more than nothing having failed, nothing is taken. */
  lemma {:induction false} NothingTaken(n: nat, rest: seq<Item>, s: string)
    requires n <= |s| && forall k :: 0 < k <= n ==> MatchAt(rest, s[k..]).None?
    ensures MatchRepeat(n, 0, false, rest, s) == MatchAt(rest, s)
  {
    if n == 0 {
      assert s[0..] == s;
    } else {
      NothingTaken(n - 1, rest, s);
    }
  }

  // ---- quoting ----

  lemma {:induction false} QuoteConcat(a: string, b: string, wide: char -> bool)
    ensures QuoteBody(a + b, wide) == QuoteBody(a, wide) + QuoteBody(b, wide)
  {
    if a == "" {
      assert a + b == b;
    } else {
      assert (a + b)[1..] == a[1..] + b;
      QuoteConcat(a[1..], b, wide);
    }
  }

  lemma {:induction false} PlainStays(s: string, wide: char -> bool)
    requires AllPlain(s, wide)
    ensures QuoteBody(s, wide) == s
  {
    if s != "" { PlainStays(s[1..], wide); }
  }

  lemma {:induction false} QuotingGrows(s: string, wide: char -> bool)
    ensures |QuoteBody(s, wide)| >= |s|
    ensures !AllPlain(s, wide) ==> |QuoteBody(s, wide)| > |s|
  {
    if s != "" {
      QuotingGrows(s[1..], wide);
      if Plain(s[0], wide) && AllPlain(s[1..], wide) {
        assert forall i :: 0 <= i < |s| ==> Plain(s[i], wide) by {
          forall i | 0 <= i < |s| ensures Plain(s[i], wide) { assert i > 0 ==> s[i] == s[1..][i - 1]; }
        }
      }
    }
  }

  /** Inside the quotes a quote always follows a backslash, and nothing breaks
      the line. */
  ghost predicate WellQuoted(t: string) {
    && '\n' !in t
    && forall i :: 0 <= i < |t| && t[i] == '"' ==> i > 0 && t[i - 1] == '\\'
  }

  lemma {:induction false} CharWellQuoted(c: char, wide: char -> bool)
    ensures WellQuoted(QuoteChar(c, wide)) && QuoteChar(c, wide) != ""
  {
  }

  lemma {:induction false} BodyWellQuoted(s: string, wide: char -> bool)
    ensures WellQuoted(QuoteBody(s, wide))
  {
    if s != "" {
      CharWellQuoted(s[0], wide);
      BodyWellQuoted(s[1..], wide);
    }
  }

  // ---- reading a rule back ----

  /** Up to the first quote. */
  function Cut(t: string): string { t[..IndexOf(t, '"')] }

  function CommentText(instance: string, quoted: string): string {
    "comment \"hospitus:" + (instance + (":" + (quoted + "\"")))
  }

  lemma {:induction false} IdMatches(quoted: string)
    ensures MatchAt(IdPattern, quoted + "\"") == Some([Cut(quoted + "\"")])
  {
    var t := quoted + "\"";
    assert t[|quoted|] == '"';
    var word := Cut(t);
    var rest := t[|word| + 1..];
    var tail := "\"" + rest;
    assert t == word + tail;
    LitStep("\"", [], rest);
    RepeatStep(NotQuote, 0, [Lit("\"")] + [], word, tail);
    assert [word] + [] == [word];
  }

  lemma {:induction false} CommentMatches(instance: string, quoted: string)
    requires instance != "" && AllNameChars(instance)
    ensures MatchAt(CommentPattern, CommentText(instance, quoted)) == Some([instance, Cut(quoted + "\"")])
  {
    var text := quoted + "\"";
    IdMatches(quoted);
    LitStep(":", IdPattern, text);
    var onward := [Lit(":")] + IdPattern;
    RepeatStep(NotQuoteOrColon, 1, onward, instance, ":" + text);
    LitStep("comment \"hospitus:", [Repeat(NotQuoteOrColon, 1, true)] + onward, instance + (":" + text));
    assert [instance] + [Cut(text)] == [instance, Cut(text)];
  }

  lemma {:induction false} QuoteAfterBackslash(instance: string, quoted: string, k: nat)
    requires AllNameChars(instance) && WellQuoted(quoted)
    requires 8 < k < |CommentText(instance, quoted)| - 1
    ensures CommentText(instance, quoted)[k] == '"' ==> CommentText(instance, quoted)[k - 1] == '\\'
  {
    var open, text := "comment \"hospitus:", CommentText(instance, quoted);
    var n := |open| + |instance|;
    if k < |open| {
      assert open[9..] == "hospitus:" && text[k] == open[9..][k - 9];
    } else if k < n {
      assert text[k] == instance[k - |open|];
    } else if k == n {
      assert text[k] == ':';
    } else {
      assert text[k] == quoted[k - n - 1];
      assert k > n + 1 ==> text[k - 1] == quoted[k - n - 2];
    }
  }

  /** What opens a comment stands nowhere else in it. */
  lemma {:induction false} OneComment(instance: string, quoted: string, k: nat)
    requires AllNameChars(instance) && WellQuoted(quoted)
    requires 0 < k <= |CommentText(instance, quoted)|
    ensures !("comment \"hospitus:" <= CommentText(instance, quoted)[k..])
  {
    var open, text := "comment \"hospitus:", CommentText(instance, quoted);
    assert open[7] == ' ' && open[8] == '"';
    if k + |open| <= |text| {
      QuoteAfterBackslash(instance, quoted, k + 8);
      assert text[k..][7] == text[k + 7] && text[k..][8] == text[k + 8];
    }
  }

  /** ".*" gives everything back. */
  lemma {:induction false} SkipMatches(instance: string, quoted: string)
    requires instance != "" && AllNameChars(instance) && WellQuoted(quoted)
    ensures MatchAt([Repeat(AnyChar, 0, false)] + CommentPattern, CommentText(instance, quoted))
         == Some([instance, Cut(quoted + "\"")])
  {
    var text := CommentText(instance, quoted);
    forall k | 0 < k <= |text| ensures MatchAt(CommentPattern, text[k..]).None? {
      OneComment(instance, quoted, k);
      assert CommentPattern[0] == Lit("comment \"hospitus:");
    }
    NothingTaken(Reach(text, AnyChar), CommentPattern, text);
    assert ([Repeat(AnyChar, 0, false)] + CommentPattern)[1..] == CommentPattern;
    CommentMatches(instance, quoted);
  }

  lemma {:induction false} TargetMatches(ip: string, port: string, instance: string, quoted: string)
    requires ip != "" && AllIn(ip, DigitOrDot) && port != "" && AllDigits(port)
    requires instance != "" && AllNameChars(instance) && WellQuoted(quoted)
    ensures MatchAt(TargetPattern, TargetText(ip, port, CommentText(instance, quoted)))
         == Some([ip, port, instance, Cut(quoted + "\"")])
  {
    var comment := CommentText(instance, quoted);
    SkipMatches(instance, quoted);
    var skip := [Repeat(AnyChar, 0, false)] + CommentPattern;
    LitStep(" ", skip, comment);
    RepeatStep(Digit, 1, [Lit(" ")] + skip, port, " " + comment);
    var ports := [Repeat(Digit, 1, true)] + ([Lit(" ")] + skip);
    LitStep(":", ports, port + (" " + comment));
    RepeatStep(DigitOrDot, 1, [Lit(":")] + ports, ip, ":" + (port + (" " + comment)));
    var id := Cut(quoted + "\"");
    assert [port] + [instance, id] == [port, instance, id];
    assert [ip] + [port, instance, id] == [ip, port, instance, id];
  }

  lemma {:induction false} PortMatches(port: string, target: string)
    requires port != "" && AllDigits(port) && MatchAt(TargetPattern, target).Some?
    ensures MatchAt(PortPattern, port + (" dnat to " + target)) == Captured(port, MatchAt(TargetPattern, target))
  {
    LitStep(" dnat to ", TargetPattern, target);
    RepeatStep(Digit, 1, [Lit(" dnat to ")] + TargetPattern, port, " dnat to " + target);
  }

  lemma {:induction false} DportMatches(text: string)
    ensures MatchAt([Lit(" dport ")] + PortPattern, " dport " + text) == MatchAt(PortPattern, text)
  {
    LitStep(" dport ", PortPattern, text);
  }

  lemma {:induction false} CapturedTwice(a: string, b: string, rest: Option<seq<string>>)
    requires rest.Some?
    ensures Captured(a, Captured(b, rest)) == Some([a, b] + rest.value)
  {
    assert [a] + ([b] + rest.value) == [a, b] + rest.value;
  }

  lemma {:induction false} BareMatches(protocol: string, port: string, target: string)
    requires protocol == "tcp" || protocol == "udp"
    requires port != "" && AllDigits(port) && MatchAt(TargetPattern, target).Some?
    ensures MatchAt(BarePattern, BareText(protocol, port, target))
         == Some([protocol, port] + MatchAt(TargetPattern, target).value)
  {
    PortMatches(port, target);
    DportMatches(port + (" dnat to " + target));
    CapturedTwice(protocol, port, MatchAt(TargetPattern, target));
    ProtocolStep([Lit(" dport ")] + PortPattern, protocol, " dport " + (port + (" dnat to " + target)));
  }

  lemma {:induction false} ScopedMatches(name: string, rest: string)
    requires name != "" && AllNameChars(name) && MatchAt(BarePattern, rest).Some?
    ensures MatchAt(InterfacePattern, "iifname \"" + (name + ("\" " + rest)))
         == Some([name] + MatchAt(BarePattern, rest).value)
  {
    LitStep("\" ", BarePattern, rest);
    var onward := [Lit("\" ")] + BarePattern;
    RepeatStep(NotQuote, 1, onward, name, "\" " + rest);
    LitStep("iifname \"", [Repeat(NotQuote, 1, true)] + onward, name + ("\" " + rest));
  }

  /** The two patterns start with an "i", a "t" or a "u". */
  lemma {:induction false} NoMatchHere(s: string)
    requires s == "" || s[0] !in {'i', 't', 'u'}
    ensures MatchHere(s) == None
  {
    var texts := ["tcp", "udp"];
    assert InterfacePattern[0] == Lit("iifname \"") && BarePattern[0] == Choice(texts);
    assert texts[1..] == ["udp"] && ["udp"][1..] == [];
    assert "iifname \""[0] == 'i' && "tcp"[0] == 't' && "udp"[0] == 'u';
    assert !("tcp" <= s) && !("udp" <= s) && !("iifname \"" <= s);
    var rest := BarePattern[1..];
    assert MatchChoice(["udp"], rest, s) == MatchChoice([], rest, s) == None;
    assert MatchChoice(texts, rest, s) == None;
  }

  lemma {:induction false} NoInterface(protocol: string, rest: string)
    requires protocol == "tcp" || protocol == "udp"
    ensures MatchAt(InterfacePattern, protocol + rest) == None
  {
    assert InterfacePattern[0] == Lit("iifname \"");
    assert "iifname \""[0] == 'i' && (protocol + rest)[0] == protocol[0];
  }

  predicate AllBlank(s: string) { forall i :: 0 <= i < |s| ==> s[i] == ' ' || s[i] == '\t' }

  lemma {:induction false} IndentSkipped(indent: string, s: string)
    requires AllBlank(indent)
    ensures Find(indent + s) == Find(s)
  {
    if indent == "" {
      assert indent + s == s;
    } else {
      NoMatchHere(indent + s);
      assert (indent + s)[1..] == indent[1..] + s;
      IndentSkipped(indent[1..], s);
    }
  }

  // ---- what a match can capture ----

  ghost predicate Fits(p: seq<Item>, caps: seq<string>) {
    if p == [] then caps == []
    else
      match p[0]
      case Lit(_) => Fits(p[1..], caps)
      case Choice(texts) => caps != [] && caps[0] in texts && Fits(p[1..], caps[1..])
      case Repeat(k, least, captured) =>
        if captured then caps != [] && |caps[0]| >= least && AllIn(caps[0], k) && Fits(p[1..], caps[1..])
        else Fits(p[1..], caps)
  }

  lemma {:induction false} MatchFits(p: seq<Item>, s: string)
    ensures MatchAt(p, s).Some? ==> Fits(p, MatchAt(p, s).value)
    decreases |p|, 1, 0
  {
    if p != [] {
      match p[0]
      case Lit(text) => if text <= s { MatchFits(p[1..], s[|text|..]); }
      case Choice(texts) => ChoiceFits(texts, p[1..], s);
      case Repeat(k, least, captured) => RepeatFits(Reach(s, k), k, least, captured, p[1..], s);
    }
  }

  lemma {:induction false} ChoiceFits(texts: seq<string>, rest: seq<Item>, s: string)
    ensures var r := MatchChoice(texts, rest, s);
            r.Some? ==> r.value != [] && r.value[0] in texts && Fits(rest, r.value[1..])
    decreases |rest| + 1, 0, |texts|
  {
    if texts != [] {
      if texts[0] <= s { MatchFits(rest, s[|texts[0]|..]); }
      ChoiceFits(texts[1..], rest, s);
    }
  }

  lemma {:induction false} RepeatFits(n: nat, k: Class, least: nat, captured: bool, rest: seq<Item>, s: string)
    requires n <= |s| && AllIn(s[..n], k)
    ensures var r := MatchRepeat(n, least, captured, rest, s);
            r.Some? && !captured ==> Fits(rest, r.value)
    ensures var r := MatchRepeat(n, least, captured, rest, s);
            r.Some? && captured ==>
              r.value != [] && |r.value[0]| >= least && AllIn(r.value[0], k) && Fits(rest, r.value[1..])
    decreases |rest| + 1, 0, n
  {
    if n >= least {
      MatchFits(rest, s[n..]);
      if n > 0 {
        assert forall i :: 0 <= i < n - 1 ==> s[..n - 1][i] == s[..n][i];
        RepeatFits(n - 1, k, least, captured, rest, s);
      }
    }
  }

  predicate Captures(item: Item) { item.Choice? || (item.Repeat? && item.captured) }

  lemma {:induction false} Peel(item: Item, rest: seq<Item>, caps: seq<string>)
    requires Fits([item] + rest, caps)
    ensures Captures(item) ==> caps != [] && Fits(rest, caps[1..])
    ensures Captures(item) && item.Repeat? ==> AllIn(caps[0], item.k)
    ensures !Captures(item) ==> Fits(rest, caps)
  {
    assert ([item] + rest)[1..] == rest;
  }

  lemma {:induction false} CommentFits(caps: seq<string>)
    requires Fits(CommentPattern, caps)
    ensures |caps| == 2
  {
    var onward := [Lit(":")] + IdPattern;
    Peel(Lit("comment \"hospitus:"), [Repeat(NotQuoteOrColon, 1, true)] + onward, caps);
    Peel(Repeat(NotQuoteOrColon, 1, true), onward, caps);
    Peel(Lit(":"), IdPattern, caps[1..]);
    Peel(Repeat(NotQuote, 0, true), [Lit("\"")] + [], caps[1..]);
    Peel(Lit("\""), [], caps[1..][1..]);
  }

  lemma {:induction false} TargetFits(caps: seq<string>)
    requires Fits(TargetPattern, caps)
    ensures |caps| == 4 && AllIn(caps[0], DigitOrDot)
  {
    var skip := [Repeat(AnyChar, 0, false)] + CommentPattern;
    var ports := [Repeat(Digit, 1, true)] + ([Lit(" ")] + skip);
    Peel(Repeat(DigitOrDot, 1, true), [Lit(":")] + ports, caps);
    var c := caps[1..];
    Peel(Lit(":"), ports, c);
    Peel(Repeat(Digit, 1, true), [Lit(" ")] + skip, c);
    Peel(Lit(" "), skip, c[1..]);
    Peel(Repeat(AnyChar, 0, false), CommentPattern, c[1..]);
    CommentFits(c[1..]);
  }

  lemma {:induction false} BareFits(caps: seq<string>)
    requires Fits(BarePattern, caps)
    ensures |caps| == 6 && AllIn(caps[2], DigitOrDot)
  {
    var onward := [Lit(" dnat to ")] + TargetPattern;
    var ports := [Repeat(Digit, 1, true)] + onward;
    Peel(Choice(["tcp", "udp"]), [Lit(" dport ")] + ports, caps);
    var c := caps[1..];
    Peel(Lit(" dport "), ports, c);
    Peel(Repeat(Digit, 1, true), onward, c);
    Peel(Lit(" dnat to "), TargetPattern, c[1..]);
    TargetFits(c[1..]);
    assert caps[2] == c[1..][0];
  }

  lemma {:induction false} HereFits(s: string)
    ensures MatchHere(s).Some? ==> |MatchHere(s).value| == 7 && AllIn(MatchHere(s).value[3], DigitOrDot)
  {
    MatchFits(InterfacePattern, s);
    MatchFits(BarePattern, s);
    if MatchAt(InterfacePattern, s).Some? {
      var caps := MatchAt(InterfacePattern, s).value;
      var onward := [Lit("\" ")] + BarePattern;
      Peel(Lit("iifname \""), [Repeat(NotQuote, 1, true)] + onward, caps);
      Peel(Repeat(NotQuote, 1, true), onward, caps);
      Peel(Lit("\" "), BarePattern, caps[1..]);
      BareFits(caps[1..]);
      assert caps[3] == caps[1..][2];
    } else if MatchAt(BarePattern, s).Some? {
      BareFits(MatchAt(BarePattern, s).value);
    }
  }

  /** A match has the seven groups, and the target is digits and dots. */
  lemma {:induction false} FindFits(s: string)
    ensures Find(s).Some? ==> |Find(s).value| == 7 && AllIn(Find(s).value[3], DigitOrDot)
  {
    HereFits(s);
    if s != "" { FindFits(s[1..]); }
  }

  // ---- the mapping comes back ----

  /** What a listing is expected to say of a mapping. */
  function Listed(m: PortMapping): PortMapping {
    m.(provider := "", description := "", active := true)
  }

  function Bare(m: PortMapping, wide: char -> bool): string {
    BareText(m.protocol, Itoa(m.hostPort),
             TargetText(m.targetIP, Itoa(m.targetPort), CommentText(m.instance, QuoteBody(m.id, wide))))
  }

  lemma {:induction false} PlainFirst(p: string, s: string, wide: char -> bool)
    requires AllPlain(p, wide)
    ensures QuoteBody(p + s, wide) == p + QuoteBody(s, wide)
  {
    QuoteConcat(p, s, wide);
    PlainStays(p, wide);
  }

  lemma {:induction false} NamesArePlain(s: string, wide: char -> bool)
    requires AllNameChars(s)
    ensures AllPlain(s, wide)
  {
  }

  lemma {:induction false} Regroup(a: string, q: string, h: string, i: string, x: string, r: string)
    ensures a + (q + (h + (i + x)) + r) == (a + q + h) + (i + (x + r))
    ensures a + ((q + i + q) + (h + r)) == (a + q) + (i + ((q + h) + r))
  {
  }

  lemma {:induction false} PlainParts(h: string, i: string, c: string, id: string, wide: char -> bool)
    requires AllPlain(h, wide) && AllPlain(i, wide) && AllPlain(c, wide)
    ensures QuoteBody(h + (i + (c + id)), wide) == h + (i + (c + QuoteBody(id, wide)))
  {
    PlainFirst(c, id, wide);
    PlainFirst(i, c + id, wide);
    PlainFirst(h, i + (c + id), wide);
  }

  lemma {:induction false} QuotedParts(a: string, h: string, i: string, c: string, id: string, wide: char -> bool)
    requires AllPlain(h, wide) && AllPlain(i, wide) && AllPlain(c, wide)
    ensures a + Quoted(h + (i + (c + id)), wide) == (a + "\"" + h) + (i + (c + (QuoteBody(id, wide) + "\"")))
  {
    var quoted := QuoteBody(id, wide);
    PlainParts(h, i, c, id, wide);
    Regroup(a, "\"", h, i, c + quoted, "\"");
    assert (c + quoted) + "\"" == c + (quoted + "\"");
  }

  lemma {:induction false} FixedText(wide: char -> bool)
    ensures AllPlain("hospitus:", wide) && AllPlain(":", wide)
    ensures "comment " + "\"" + "hospitus:" == "comment \"hospitus:"
  {
  }

  lemma {:induction false} CommentQuoted(instance: string, id: string, wide: char -> bool)
    requires AllNameChars(instance)
    ensures "comment " + Quoted("hospitus:" + (instance + (":" + id)), wide)
         == CommentText(instance, QuoteBody(id, wide))
  {
    FixedText(wide);
    NamesArePlain(instance, wide);
    QuotedParts("comment ", "hospitus:", instance, ":", id, wide);
  }

  lemma {:induction false} ScopeQuoted(name: string, rule: string, wide: char -> bool)
    requires AllNameChars(name)
    ensures "iifname " + (Quoted(name, wide) + (" " + rule)) == "iifname \"" + (name + ("\" " + rule))
  {
    NamesArePlain(name, wide);
    PlainStays(name, wide);
    Regroup("iifname ", "\"", " ", name, "", rule);
    assert "iifname " + "\"" == "iifname \"" && "\"" + " " == "\" ";
  }

  lemma {:induction false} RuleShape(m: PortMapping, wide: char -> bool)
    requires Valid(m)
    ensures RuleText(m, wide)
         == if m.hostInterface == "" then Bare(m, wide)
            else "iifname \"" + (m.hostInterface + ("\" " + Bare(m, wide)))
  {
    CommentQuoted(m.instance, m.id, wide);
    if m.hostInterface != "" { ScopeQuoted(m.hostInterface, Bare(m, wide), wide); }
  }

  /** What is captured of the ID: what "%q" makes of it, up to the first quote. */
  function IdRead(m: PortMapping, wide: char -> bool): string { Cut(QuoteBody(m.id, wide) + "\"") }

  lemma {:induction false} BareCaptured(m: PortMapping, wide: char -> bool)
    requires Valid(m) && AllIn(m.targetIP, DigitOrDot)
    ensures MatchAt(BarePattern, Bare(m, wide))
         == Some([m.protocol, Itoa(m.hostPort), m.targetIP, Itoa(m.targetPort), m.instance, IdRead(m, wide)])
  {
    var quoted := QuoteBody(m.id, wide);
    var hp, tp, id := Itoa(m.hostPort), Itoa(m.targetPort), IdRead(m, wide);
    BodyWellQuoted(m.id, wide);
    TargetMatches(m.targetIP, tp, m.instance, quoted);
    var target := TargetText(m.targetIP, tp, CommentText(m.instance, quoted));
    BareMatches(m.protocol, hp, target);
    assert [m.protocol, hp] + [m.targetIP, tp, m.instance, id]
        == [m.protocol, hp, m.targetIP, tp, m.instance, id];
  }

  lemma {:induction false} HereCaptured(name: string, protocol: string, rest: string)
    requires AllNameChars(name) && (protocol == "tcp" || protocol == "udp")
    requires MatchAt(BarePattern, protocol + rest).Some?
    ensures Find(if name == "" then protocol + rest else "iifname \"" + (name + ("\" " + (protocol + rest))))
         == Captured(name, MatchAt(BarePattern, protocol + rest))
  {
    if name == "" {
      NoInterface(protocol, rest);
    } else {
      ScopedMatches(name, protocol + rest);
    }
  }

  lemma {:induction false} FoundIsParsed(line: string, m: PortMapping)
    requires ValidPort(m.hostPort) && ValidPort(m.targetPort)
    requires Find(line)
          == Some([m.hostInterface]
                  + [m.protocol, Itoa(m.hostPort), m.targetIP, Itoa(m.targetPort), m.instance, m.id])
    ensures ParseMapping(line) == Some(Listed(m))
  {
    AtoiItoa(m.hostPort);
    AtoiItoa(m.targetPort);
  }

  /** Everything but the ID always comes back. */
  lemma {:induction false} DottedRuleReads(m: PortMapping, wide: char -> bool)
    requires Valid(m) && AllIn(m.targetIP, DigitOrDot)
    ensures ParseMapping(RuleText(m, wide)) == Some(Listed(m).(id := IdRead(m, wide)))
  {
    RuleShape(m, wide);
    BareCaptured(m, wide);
    var target := TargetText(m.targetIP, Itoa(m.targetPort), CommentText(m.instance, QuoteBody(m.id, wide)));
    HereCaptured(m.hostInterface, m.protocol, " dport " + (Itoa(m.hostPort) + (" dnat to " + target)));
    FoundIsParsed(RuleText(m, wide), m.(id := IdRead(m, wide)));
  }

  /** The ID comes back exactly when "%q" has nothing to escape in it. */
  lemma {:induction false} IdComesBackIff(id: string, wide: char -> bool)
    ensures Cut(QuoteBody(id, wide) + "\"") == id <==> AllPlain(id, wide)
  {
    var quoted := QuoteBody(id, wide);
    assert (quoted + "\"")[|quoted|] == '"';
    if AllPlain(id, wide) {
      PlainStays(id, wide);
      assert IndexOf(quoted + "\"", '"') == |id|;
    } else if '"' !in quoted {
      QuotingGrows(id, wide);
      assert IndexOf(quoted + "\"", '"') == |quoted|;
    } else {
      QuoteWasQuoted(id, wide);
    }
  }

  lemma {:induction false} QuoteWasQuoted(s: string, wide: char -> bool)
    ensures '"' in QuoteBody(s, wide) ==> '"' in s
  {
    if s != "" {
      QuoteWasQuoted(s[1..], wide);
    }
  }

  /** A rule as listed reads back as the mapping it was written for exactly when
      the target is written in digits and dots and the ID needs no escaping. */
  lemma {:induction false} RuleReadsBackIff(m: PortMapping, indent: string, wide: char -> bool)
    requires Valid(m) && AllBlank(indent)
    ensures ParseMapping(indent + RuleText(m, wide)) == Some(Listed(m))
       <==> AllIn(m.targetIP, DigitOrDot) && AllPlain(m.id, wide)
  {
    var text := RuleText(m, wide);
    IndentSkipped(indent, text);
    assert ParseMapping(indent + text) == ParseMapping(text);
    if AllIn(m.targetIP, DigitOrDot) {
      DottedRuleReads(m, wide);
      IdComesBackIff(m.id, wide);
    } else {
      FindFits(text);
    }
  }

  // ---- the mappings the manager makes ----

  function Or(s: string, default: string): string { if s == "" then default else s }

  /** "%s/%s/...": the fields between slashes. */
  function Slashed(fields: seq<string>): string {
    if fields == [] then "" else if |fields| == 1 then fields[0] else fields[0] + ("/" + Slashed(fields[1..]))
  }

  function IdFields(m: PortMapping): seq<string> {
    [m.instance, m.provider, m.protocol, Or(m.hostInterface, "any"), Itoa(m.hostPort), Or(m.targetIP, "any"),
     Itoa(m.targetPort)]
  }

  function GenerateID(m: PortMapping): string { Slashed(IdFields(m)) }

  /** An IPv4 address as it is usually written. */
  function DottedQuad(a: nat, b: nat, c: nat, d: nat): string {
    Itoa(a) + ("." + (Itoa(b) + ("." + (Itoa(c) + ("." + Itoa(d))))))
  }

  lemma {:induction false} QuadIsDotted(a: nat, b: nat, c: nat, d: nat)
    ensures AllIn(DottedQuad(a, b, c, d), DigitOrDot)
  {
    AllInConcat(".", Itoa(d), DigitOrDot);
    AllInConcat(Itoa(c), "." + Itoa(d), DigitOrDot);
    var cd := Itoa(c) + ("." + Itoa(d));
    AllInConcat(".", cd, DigitOrDot);
    AllInConcat(Itoa(b), "." + cd, DigitOrDot);
    var bcd := Itoa(b) + ("." + cd);
    AllInConcat(".", bcd, DigitOrDot);
    AllInConcat(Itoa(a), "." + bcd, DigitOrDot);
  }

  lemma {:induction false} AllInConcat(s: string, t: string, k: Class)
    requires AllIn(s, k) && AllIn(t, k)
    ensures AllIn(s + t, k)
  {
  }

  lemma {:induction false} SlashedIsPlain(fields: seq<string>, wide: char -> bool)
    requires forall i :: 0 <= i < |fields| ==> AllPlain(fields[i], wide)
    ensures AllPlain(Slashed(fields), wide)
  {
    if |fields| > 1 { SlashedIsPlain(fields[1..], wide); }
  }

  lemma {:induction false} GeneratedIsPlain(m: PortMapping, wide: char -> bool)
    requires Valid(m) && AllIn(m.targetIP, DigitOrDot)
    ensures AllPlain(GenerateID(m), wide)
  {
    SlashedIsPlain(IdFields(m), wide);
  }

  /** So every mapping that ExposePort makes for a dotted IPv4 address is listed
      as it was made, however the listing is indented. */
  lemma {:induction false} ExposedIsListed(m: PortMapping, a: nat, b: nat, c: nat, d: nat, indent: string, wide: char -> bool)
    requires Valid(m) && m.targetIP == DottedQuad(a, b, c, d) && m.id == GenerateID(m) && AllBlank(indent)
    ensures ParseMapping(indent + RuleText(m, wide)) == Some(Listed(m))
  {
    QuadIsDotted(a, b, c, d);
    GeneratedIsPlain(m, wide);
    RuleReadsBackIff(m, indent, wide);
  }

  /** AddPortMapping also takes an IPv4-mapped address, since To4 accepts it, and
      any ID at all; neither of these rules is listed as it was made. */
  lemma {:induction false} MappedAddressIsMisread(wide: char -> bool)
    ensures var m := PortMapping("x", "web", "", "tcp", 80, "::ffff:10.0.0.2", 8080, "", "", true);
            Valid(m) && ParseMapping(RuleText(m, wide)) != Some(Listed(m))
    ensures var m := PortMapping("a\\b", "web", "", "tcp", 80, "10.0.0.2", 8080, "", "", true);
            Valid(m) && ParseMapping(RuleText(m, wide)) != Some(Listed(m))
  {
    var m := PortMapping("x", "web", "", "tcp", 80, "::ffff:10.0.0.2", 8080, "", "", true);
    assert m.targetIP[0] == ':';
    RuleReadsBackIff(m, "", wide);
    assert "" + RuleText(m, wide) == RuleText(m, wide);
    var n := m.(id := "a\\b", targetIP := "10.0.0.2");
    assert n.id[1] == '\\';
    RuleReadsBackIff(n, "", wide);
    assert "" + RuleText(n, wide) == RuleText(n, wide);
  }

  // ---- IDs tell mappings apart ----

  lemma {:induction false} FirstFieldTold(a: string, x: string, b: string, y: string)
    requires '/' !in a && '/' !in b
    requires a + ("/" + x) == b + ("/" + y)
    ensures a == b && x == y
  {
    var s := a + ("/" + x);
    assert s == a + ['/'] + x && s == b + ['/'] + y;
    IndexOfAfter(a, '/', x);
    IndexOfAfter(b, '/', y);
    assert s[..|a|] == a && s[..|b|] == b && s[|a| + 1..] == x && s[|b| + 1..] == y;
  }

  lemma {:induction false} FieldsTold(a: seq<string>, b: seq<string>)
    requires |a| == |b| && forall i :: 0 <= i < |a| ==> '/' !in a[i] && '/' !in b[i]
    requires Slashed(a) == Slashed(b)
    ensures a == b
  {
    if |a| > 1 {
      FirstFieldTold(a[0], Slashed(a[1..]), b[0], Slashed(b[1..]));
      FieldsTold(a[1..], b[1..]);
      assert a == [a[0]] + a[1..] && b == [b[0]] + b[1..];
    }
  }

  predicate SameForwarding(m: PortMapping, n: PortMapping) {
    && m.instance == n.instance && m.provider == n.provider && m.protocol == n.protocol
    && Or(m.hostInterface, "any") == Or(n.hostInterface, "any")
    && m.hostPort == n.hostPort && m.targetIP == n.targetIP && m.targetPort == n.targetPort
  }

  lemma {:induction false} FieldsHaveNoSlash(m: PortMapping)
    requires Valid(m) && '/' !in m.targetIP
    ensures forall i :: 0 <= i < |IdFields(m)| ==> '/' !in IdFields(m)[i]
  {
  }

  /** Two valid mappings get the same ID exactly when they forward the same
      thing, an unset interface and one called "any" not being told apart. */
  lemma {:induction false} IdsAgreeIff(m: PortMapping, n: PortMapping)
    requires Valid(m) && Valid(n) && '/' !in m.targetIP && '/' !in n.targetIP
    ensures GenerateID(m) == GenerateID(n) <==> SameForwarding(m, n)
  {
    if GenerateID(m) == GenerateID(n) {
      FieldsHaveNoSlash(m);
      FieldsHaveNoSlash(n);
      var a, b := IdFields(m), IdFields(n);
      FieldsTold(a, b);
      assert a[0] == b[0] && a[1] == b[1] && a[2] == b[2] && a[3] == b[3];
      assert a[4] == b[4] && a[5] == b[5] && a[6] == b[6];
      AtoiItoa(m.hostPort);
      AtoiItoa(n.hostPort);
      AtoiItoa(m.targetPort);
      AtoiItoa(n.targetPort);
    }
  }

  // ---- the rule letter by letter ----

  lemma {:induction false} SomeNumbers()
    ensures Itoa(80) == "80" && Itoa(8080) == "8080"
  {
    assert Decimal(8) == "8";
    assert Decimal(80) == "8" + "0" == "80";
    assert Decimal(808) == "80" + "8" == "808";
    assert Decimal(8080) == "808" + "0" == "8080";
  }

  /** A mapping of port 80 to 10.0.0.2:8080, on any interface and on em0. */
  lemma {:induction false} RuleLetterByLetter(wide: char -> bool)
    ensures var m := PortMapping("x", "web", "jail", "tcp", 80, "10.0.0.2", 8080, "", "", true);
            var rule := "tcp" + (" dport " + ("80" + (" dnat to " + ("10.0.0.2" + (":" + ("8080" + (" " +
                        ("comment \"hospitus:" + ("web" + (":" + ("x" + "\"")))))))))));
            && RuleText(m, wide) == rule
            && RuleText(m.(hostInterface := "em0"), wide) == "iifname \"" + ("em0" + ("\" " + rule))
  {
    var m := PortMapping("x", "web", "jail", "tcp", 80, "10.0.0.2", 8080, "", "", true);
    SomeNumbers();
    PlainStays("x", wide);
    RuleShape(m, wide);
    RuleShape(m.(hostInterface := "em0"), wide);
  }

  /** The ID the manager gives it. */
  lemma {:induction false} IdLetterByLetter()
    ensures GenerateID(PortMapping("", "web", "jail", "tcp", 80, "10.0.0.2", 8080, "", "", true))
         == "web" + ("/" + ("jail" + ("/" + ("tcp" + ("/" + ("any" + ("/" + ("80" + ("/" + ("10.0.0.2" + ("/" + "8080")))))))))))
  {
    SomeNumbers();
    var f := ["web", "jail", "tcp", "any", "80", "10.0.0.2", "8080"];
    assert f[6..] == ["8080"] && Slashed(f[6..]) == "8080";
    assert f[5..][1..] == f[6..] && f[4..][1..] == f[5..] && f[3..][1..] == f[4..];
    assert f[2..][1..] == f[3..] && f[1..][1..] == f[2..];
    assert Slashed(f[5..]) == "10.0.0.2" + ("/" + Slashed(f[6..]));
    assert Slashed(f[4..]) == "80" + ("/" + Slashed(f[5..]));
    assert Slashed(f[3..]) == "any" + ("/" + Slashed(f[4..]));
    assert Slashed(f[2..]) == "tcp" + ("/" + Slashed(f[3..]));
    assert Slashed(f[1..]) == "jail" + ("/" + Slashed(f[2..]));
    assert Slashed(f) == "web" + ("/" + Slashed(f[1..]));
  }
}
