/** cloud-init user-data: every manifest value is printed as a YAML
    double-quoted scalar, so that no value can change the document around it.
    The reader follows sections 5.7 and 7.3.1 of YAML 1.2.2. */
module CloudInit {
  import opened Text

  // ---- printing a scalar ----

  function HexDigit(n: int): char
    requires 0 <= n < 16
  {
    if n < 10 then ('0' as int + n) as char else ('a' as int + n - 10) as char
  }

  function EscapeChar(c: char): string {
    if c == '"' then ['\\', '"']
    else if c == '\\' then ['\\', '\\']
    else if c == '\n' then ['\\', 'n']
    else if c == '\r' then ['\\', 'r']
    else if c == '\t' then ['\\', 't']
    else if c as int < 0x20 then ['\\', 'x', HexDigit(c as int / 16), HexDigit(c as int % 16)]
    else [c]
  }

  function Escaped(s: string): string {
    if s == "" then "" else EscapeChar(s[0]) + Escaped(s[1..])
  }

  function Quoted(s: string): string { "\"" + Escaped(s) + "\"" }

  lemma {:induction false} EscapedAppend(s: string, c: char)
    ensures Escaped(s + [c]) == Escaped(s) + EscapeChar(c)
  {
    if s == "" {
      assert [c][1..] == "" && s + [c] == [c];
    } else {
      assert (s + [c])[1..] == s[1..] + [c];
      EscapedAppend(s[1..], c);
    }
  }

  /** One turn of yamlScalar's switch. */
  method WriteChar(b: string, c: char) returns (r: string)
    ensures r == b + EscapeChar(c)
  {
    if c == '"' {
      r := b + "\\\"";
    } else if c == '\\' {
      r := b + "\\\\";
    } else if c == '\n' {
      r := b + "\\n";
    } else if c == '\r' {
      r := b + "\\r";
    } else if c == '\t' {
      r := b + "\\t";
    } else if c as int < 0x20 {
      r := b + ("\\x" + [HexDigit(c as int / 16), HexDigit(c as int % 16)]);
    } else {
      r := b + [c];
    }
  }

  /** yamlScalar's builder loop. */
  method YamlScalar(s: string) returns (r: string)
    ensures r == Quoted(s)
  {
    var b := "\"";
    for i := 0 to |s|
      invariant b == "\"" + Escaped(s[..i])
    {
      var c := s[i];
      b := WriteChar(b, c);
      EscapedAppend(s[..i], c);
      assert s[..i + 1] == s[..i] + [c];
    }
    assert s[..|s|] == s;
    r := b + "\"";
  }

  // ---- reading a scalar, YAML 1.2.2 ----

  function HexValue(c: char): Option<int> {
    if IsDigit(c) then Some(DigitValue(c))
    else if 'a' <= c <= 'f' then Some(c as int - 'a' as int + 10)
    else if 'A' <= c <= 'F' then Some(c as int - 'A' as int + 10)
    else None
  }

  /** The code point of n hexadecimal digits. */
  function HexNumber(s: string): Option<int> {
    if s == "" then Some(0)
    else
      var high, low := HexNumber(s[..|s| - 1]), HexValue(s[|s| - 1]);
      if high.None? || low.None? then None else Some(16 * high.value + low.value)
  }

  predicate IsScalarValue(n: int) { 0 <= n < 0xD800 || 0xE000 <= n < 0x11_0000 }

  /** The characters escaped by one letter, section 5.7. */
  function NamedEscape(c: char): Option<char> {
    match c
    case '0' => Some(0 as char)
    case 'a' => Some(7 as char)
    case 'b' => Some(8 as char)
    case 't' => Some('\t')
    case '\t' => Some('\t')
    case 'n' => Some('\n')
    case 'v' => Some(11 as char)
    case 'f' => Some(12 as char)
    case 'r' => Some('\r')
    case 'e' => Some(27 as char)
    case ' ' => Some(' ')
    case '"' => Some('"')
    case '/' => Some('/')
    case '\\' => Some('\\')
    case 'N' => Some(0x85 as char)
    case '_' => Some(0xA0 as char)
    case 'L' => Some(0x2028 as char)
    case 'P' => Some(0x2029 as char)
    case _ => None
  }

  /** How many hexadecimal digits follow \x, \u and \U. */
  function HexLength(c: char): nat {
    if c == 'x' then 2 else if c == 'u' then 4 else if c == 'U' then 8 else 0
  }

  /** One character of the contents and how much text it took, or nothing where
      the text is not allowed in a one-line double-quoted scalar. */
  function ReadChar(t: string): Option<(char, nat)>
    requires t != ""
  {
    if t[0] == '\\' then
      if |t| < 2 then None
      else if HexLength(t[1]) > 0 then
        var n := HexLength(t[1]);
        if |t| < 2 + n then None
        else
          var v := HexNumber(t[2..2 + n]);
          if v.None? || !IsScalarValue(v.value) then None else Some((v.value as char, 2 + n))
      else
        var named := NamedEscape(t[1]);
        if named.None? then None else Some((named.value, 2))
    else if t[0] == '"' || (t[0] as int < 0x20 && t[0] != '\t') then None
    else Some((t[0], 1))
  }

  /** The contents up to a closing quote that ends the text. */
  function ReadBody(t: string): Option<string>
    decreases |t|
  {
    if t == "" then None
    else if t[0] == '"' then if |t| == 1 then Some("") else None
    else
      match ReadChar(t)
      case None => None
      case Some((c, n)) =>
        if n == 0 || n > |t| then None
        else
          var rest := ReadBody(t[n..]);
          if rest.None? then None else Some([c] + rest.value)
  }

  /** A one-line double-quoted scalar, read. */
  function ReadScalar(t: string): Option<string> {
    if t == "" || t[0] != '"' then None else ReadBody(t[1..])
  }

  lemma HexPair(n: int)
    requires 0 <= n < 256
    ensures HexNumber([HexDigit(n / 16), HexDigit(n % 16)]) == Some(n)
  {
    var a, b := HexDigit(n / 16), HexDigit(n % 16);
    assert HexValue(a) == Some(n / 16) && HexValue(b) == Some(n % 16);
    assert [a, b][..1] == [a] && [a][..0] == "";
    assert HexNumber([a]) == Some(n / 16);
  }

  lemma ReadEscapedChar(c: char, rest: string)
    ensures EscapeChar(c) + rest != ""
    ensures EscapeChar(c)[0] != '"'
    ensures ReadChar(EscapeChar(c) + rest) == Some((c, |EscapeChar(c)|))
  {
    var t := EscapeChar(c) + rest;
    if c as int < 0x20 && c != '\n' && c != '\r' && c != '\t' {
      HexPair(c as int);
      assert t[2..4] == [HexDigit(c as int / 16), HexDigit(c as int % 16)];
      assert t[0] == '\\' && t[1] == 'x';
    }
  }

  lemma {:induction false} ReadEscaped(s: string)
    ensures ReadBody(Escaped(s) + "\"") == Some(s)
  {
    if s != "" {
      var t := Escaped(s) + "\"";
      var rest := Escaped(s[1..]) + "\"";
      assert t == EscapeChar(s[0]) + rest;
      ReadEscapedChar(s[0], rest);
      assert t[|EscapeChar(s[0])|..] == rest;
      ReadEscaped(s[1..]);
      assert s == [s[0]] + s[1..];
    }
  }

  /** Whatever the string, reading what was printed gives it back. */
  lemma ScalarRoundTrip(s: string)
    ensures ReadScalar(Quoted(s)) == Some(s)
  {
    assert Quoted(s)[1..] == Escaped(s) + "\"";
    ReadEscaped(s);
  }

  /** No control character, and so no line break, is printed raw. */
  lemma {:induction false} NothingRaw(s: string)
    ensures forall c :: c in Escaped(s) ==> c as int >= 0x20
  {
    if s != "" { NothingRaw(s[1..]); }
  }

  // ---- the user-data template ----

  datatype User = User(
    name: string, groups: seq<string>, shell: string, sudo: string, doas: string,
    password: string, lock: bool, keys: seq<string>)

  datatype Config = Config(users: seq<User>, keys: seq<string>, packages: seq<string>, commands: seq<string>, custom: string)

  /** The fixed text of each kind of line. */
  datatype Label =
    | Header | Users | Name | Groups | Shell | Sudo | Doas | Password | Lock | UserKeys | UserKey
    | Keys | Packages | Commands | Item

  function LabelText(l: Label): string {
    match l
    case Header => "#cloud-config"
    case Users => "users:"
    case Name => "  - name: "
    case Groups => "    groups: "
    case Shell => "    shell: "
    case Sudo => "    sudo: "
    case Doas => "    doas: "
    case Password => "    plain_text_passwd: "
    case Lock => "    lock_passwd: true"
    case UserKeys => "    ssh_authorized_keys:"
    case UserKey => "      - "
    case Keys => "ssh_authorized_keys:"
    case Packages => "packages:"
    case Commands => "runcmd:"
    case Item => "  - "
  }

  /** A line of the document: fixed text, and a value where it has one. */
  datatype Line = Line(tag: Label, value: Option<string>)

  function LineText(l: Line): string {
    LabelText(l.tag) + if l.value.Some? then Quoted(l.value.value) else ""
  }

  function Fixed(tag: Label): seq<Line> { [Line(tag, None)] }

  function Valued(tag: Label, value: string): seq<Line> { [Line(tag, Some(value))] }

  /** {{if .Field}} on a string. */
  function IfSet(tag: Label, value: string): seq<Line> { if value == "" then [] else Valued(tag, value) }

  function Items(tag: Label, values: seq<string>): seq<Line> {
    if values == [] then [] else Valued(tag, values[0]) + Items(tag, values[1..])
  }

  /** {{if .List}} heading {{range}} items. */
  function Listed(heading: Label, item: Label, values: seq<string>): seq<Line> {
    if values == [] then [] else Fixed(heading) + Items(item, values)
  }

  function Join(values: seq<string>): string {
    if values == [] then "" else if |values| == 1 then values[0] else values[0] + ", " + Join(values[1..])
  }

  /** doasRule: every %u becomes the user's name. */
  function DoasRule(rule: string, user: string): string {
    if |rule| < 2 then rule
    else if rule[0] == '%' && rule[1] == 'u' then user + DoasRule(rule[2..], user)
    else [rule[0]] + DoasRule(rule[1..], user)
  }

  ghost predicate NoMark(rule: string) { forall i :: 0 <= i < |rule| - 1 ==> rule[i] != '%' || rule[i + 1] != 'u' }

  lemma {:induction false} DoasSkips(c: char, rest: string, user: string)
    requires rest == "" || c != '%' || rest[0] != 'u'
    ensures DoasRule([c] + rest, user) == [c] + DoasRule(rest, user)
  {
    var rule := [c] + rest;
    assert rule[1..] == rest;
  }

  lemma {:induction false} DoasMark(after: string, user: string)
    ensures DoasRule(['%', 'u'] + after, user) == user + DoasRule(after, user)
  {
    var rule := ['%', 'u'] + after;
    assert rule[2..] == after;
  }

  /** strings.ReplaceAll: text without the mark stays, and the leftmost mark is
      replaced before the rest is looked at. */
  lemma {:induction false} DoasReplaces(before: string, after: string, user: string)
    requires NoMark(before)
    ensures DoasRule(before, user) == before
    ensures DoasRule(before + (['%', 'u'] + after), user) == before + (user + DoasRule(after, user))
  {
    var tail := ['%', 'u'] + after;
    DoasMark(after, user);
    if before == "" {
      assert before + tail == tail;
    } else {
      var c, rest := before[0], before[1..];
      assert before == [c] + rest && before + tail == [c] + (rest + tail);
      assert NoMark(rest);
      DoasReplaces(rest, after, user);
      DoasSkips(c, rest, user);
      DoasSkips(c, rest + tail, user);
    }
  }

  function GroupsLine(u: User): seq<Line> { if u.groups == [] then [] else Valued(Groups, Join(u.groups)) }

  function DoasLine(u: User): seq<Line> { if u.doas == "" then [] else Valued(Doas, DoasRule(u.doas, u.name)) }

  function LockLine(u: User): seq<Line> { if u.lock then Fixed(Lock) else [] }

  function UserLines(u: User): seq<Line> {
    Valued(Name, u.name)
    + GroupsLine(u)
    + IfSet(Shell, u.shell)
    + IfSet(Sudo, u.sudo)
    + DoasLine(u)
    + IfSet(Password, u.password)
    + LockLine(u)
    + Listed(UserKeys, UserKey, u.keys)
  }

  function AllUsers(users: seq<User>): seq<Line> {
    if users == [] then [] else UserLines(users[0]) + AllUsers(users[1..])
  }

  function UsersPart(c: Config): seq<Line> { if c.users == [] then [] else Fixed(Users) + AllUsers(c.users) }

  function Document(c: Config): seq<Line> {
    Fixed(Header)
    + UsersPart(c)
    + Listed(Keys, Item, c.keys)
    + Listed(Packages, Item, c.packages)
    + Listed(Commands, Item, c.commands)
  }

  function Render(lines: seq<Line>): string {
    if lines == [] then "" else LineText(lines[0]) + "\n" + Render(lines[1..])
  }

  /** generateUserData: the custom part is appended as it is. */
  function UserData(c: Config): string {
    Render(Document(c)) + if c.custom == "" then "" else "\n" + c.custom
  }

  // ---- values cannot change the structure ----

  function SplitLines(t: string): seq<string>
    decreases |t|
  {
    if '\n' !in t then if t == "" then [] else [t]
    else
      var i := IndexOf(t, '\n');
      [t[..i]] + SplitLines(t[i + 1..])
  }

  function Texts(lines: seq<Line>): seq<string> {
    if lines == [] then [] else [LineText(lines[0])] + Texts(lines[1..])
  }

  lemma NoBreakInTag(l: Label)
    ensures '\n' !in LabelText(l)
  {
  }

  lemma NoBreakInLine(l: Line)
    ensures '\n' !in LineText(l)
  {
    NoBreakInTag(l.tag);
    if l.value.Some? {
      NothingRaw(l.value.value);
      assert '\n' !in Quoted(l.value.value);
    }
  }

  lemma SplitFirst(a: string, b: string)
    requires '\n' !in a
    ensures SplitLines(a + "\n" + b) == [a] + SplitLines(b)
  {
    var t := a + "\n" + b;
    assert t[|a|] == '\n' && forall k :: 0 <= k < |a| ==> t[k] == a[k];
    assert IndexOf(t, '\n') == |a|;
    assert t[..|a|] == a && t[|a| + 1..] == b;
  }

  /** The lines of the rendered document are the lines that were meant. */
  lemma {:induction false} RenderedLines(lines: seq<Line>)
    ensures SplitLines(Render(lines)) == Texts(lines)
  {
    if lines != [] {
      NoBreakInLine(lines[0]);
      SplitFirst(LineText(lines[0]), Render(lines[1..]));
      RenderedLines(lines[1..]);
    }
  }

  /** What of a configuration decides the shape of its document: which fields
      are set, and how long the lists are. */
  datatype UserShape = UserShape(groups: bool, shell: bool, sudo: bool, doas: bool, password: bool, lock: bool, keys: nat)

  function ShapeOf(u: User): UserShape {
    UserShape(u.groups != [], u.shell != "", u.sudo != "", u.doas != "", u.password != "", u.lock, |u.keys|)
  }

  ghost predicate SameShape(c: Config, d: Config) {
    && |c.users| == |d.users| && (forall i :: 0 <= i < |c.users| ==> ShapeOf(c.users[i]) == ShapeOf(d.users[i]))
    && |c.keys| == |d.keys| && |c.packages| == |d.packages| && |c.commands| == |d.commands|
  }

  /** Labels agree line by line, and so does which lines carry a value. */
  ghost predicate SameSkeleton(a: seq<Line>, b: seq<Line>) {
    |a| == |b| && forall i :: 0 <= i < |a| ==> a[i].tag == b[i].tag && a[i].value.Some? == b[i].value.Some?
  }

  lemma JoinSkeletons(a: seq<Line>, b: seq<Line>, a': seq<Line>, b': seq<Line>)
    requires SameSkeleton(a, a') && SameSkeleton(b, b')
    ensures SameSkeleton(a + b, a' + b')
  {
  }

  lemma {:induction false} ItemsSkeleton(tag: Label, v: seq<string>, w: seq<string>)
    requires |v| == |w|
    ensures SameSkeleton(Items(tag, v), Items(tag, w))
  {
    if v != [] {
      ItemsSkeleton(tag, v[1..], w[1..]);
      JoinSkeletons(Valued(tag, v[0]), Items(tag, v[1..]), Valued(tag, w[0]), Items(tag, w[1..]));
    }
  }

  lemma ListedSkeleton(heading: Label, item: Label, v: seq<string>, w: seq<string>)
    requires |v| == |w|
    ensures SameSkeleton(Listed(heading, item, v), Listed(heading, item, w))
  {
    if v != [] {
      ItemsSkeleton(item, v, w);
      JoinSkeletons(Fixed(heading), Items(item, v), Fixed(heading), Items(item, w));
    }
  }

  /** One more part of a document, there on both sides or on neither. */
  lemma AddPart(a: seq<Line>, b: seq<Line>, x: seq<Line>, y: seq<Line>) returns (ax: seq<Line>, bx: seq<Line>)
    requires SameSkeleton(a, b) && SameSkeleton(x, y)
    ensures ax == a + x && bx == b + y && SameSkeleton(ax, bx)
  {
    ax, bx := a + x, b + y;
  }

  lemma IfSetSkeleton(tag: Label, v: string, w: string)
    requires (v == "") == (w == "")
    ensures SameSkeleton(IfSet(tag, v), IfSet(tag, w))
  {
  }

  lemma UserSkeleton(u: User, v: User)
    requires ShapeOf(u) == ShapeOf(v)
    ensures SameSkeleton(UserLines(u), UserLines(v))
  {
    var a, b := Valued(Name, u.name), Valued(Name, v.name);
    a, b := AddPart(a, b, GroupsLine(u), GroupsLine(v));
    IfSetSkeleton(Shell, u.shell, v.shell);
    a, b := AddPart(a, b, IfSet(Shell, u.shell), IfSet(Shell, v.shell));
    IfSetSkeleton(Sudo, u.sudo, v.sudo);
    a, b := AddPart(a, b, IfSet(Sudo, u.sudo), IfSet(Sudo, v.sudo));
    a, b := AddPart(a, b, DoasLine(u), DoasLine(v));
    IfSetSkeleton(Password, u.password, v.password);
    a, b := AddPart(a, b, IfSet(Password, u.password), IfSet(Password, v.password));
    a, b := AddPart(a, b, LockLine(u), LockLine(v));
    ListedSkeleton(UserKeys, UserKey, u.keys, v.keys);
    a, b := AddPart(a, b, Listed(UserKeys, UserKey, u.keys), Listed(UserKeys, UserKey, v.keys));
  }

  lemma {:induction false} UsersSkeleton(a: seq<User>, b: seq<User>)
    requires |a| == |b| && forall i :: 0 <= i < |a| ==> ShapeOf(a[i]) == ShapeOf(b[i])
    ensures SameSkeleton(AllUsers(a), AllUsers(b))
  {
    if a != [] {
      UserSkeleton(a[0], b[0]);
      UsersSkeleton(a[1..], b[1..]);
      JoinSkeletons(UserLines(a[0]), AllUsers(a[1..]), UserLines(b[0]), AllUsers(b[1..]));
    }
  }

  lemma DocumentSkeleton(c: Config, d: Config)
    requires SameShape(c, d)
    ensures SameSkeleton(Document(c), Document(d))
  {
    UsersSkeleton(c.users, d.users);
    ListedSkeleton(Keys, Item, c.keys, d.keys);
    ListedSkeleton(Packages, Item, c.packages, d.packages);
    ListedSkeleton(Commands, Item, c.commands, d.commands);
    var cu, du := Fixed(Header) + UsersPart(c), Fixed(Header) + UsersPart(d);
    if c.users != [] { JoinSkeletons(Fixed(Users), AllUsers(c.users), Fixed(Users), AllUsers(d.users)); }
    assert SameSkeleton(cu, du);
    var ck, dk := Listed(Keys, Item, c.keys), Listed(Keys, Item, d.keys);
    var cp, dp := Listed(Packages, Item, c.packages), Listed(Packages, Item, d.packages);
    JoinSkeletons(cu, ck, du, dk);
    JoinSkeletons(cu + ck, cp, du + dk, dp);
    JoinSkeletons(cu + ck + cp, Listed(Commands, Item, c.commands), du + dk + dp, Listed(Commands, Item, d.commands));
  }

  /** Two configurations of the same shape, with no custom part, render to as
      many lines, with the same fixed text at the start of each; after it comes
      nothing, or a scalar that reads back as the value meant for that line. */
  lemma StructureFollowsShape(c: Config, d: Config)
    requires SameShape(c, d) && c.custom == "" && d.custom == ""
    ensures SameSkeleton(Document(c), Document(d))
    ensures AllRead(SplitLines(UserData(c)), Document(c))
    ensures AllRead(SplitLines(UserData(d)), Document(d))
  {
    DocumentSkeleton(c, d);
    DocumentReads(c);
    DocumentReads(d);
  }

  /** Every line of the text is the line meant at that place. */
  ghost predicate AllRead(texts: seq<string>, lines: seq<Line>) {
    |texts| == |lines| && forall i :: 0 <= i < |texts| ==> LineReads(texts[i], lines[i])
  }

  lemma DocumentReads(c: Config)
    requires c.custom == ""
    ensures AllRead(SplitLines(UserData(c)), Document(c))
  {
    var lines := Document(c);
    assert UserData(c) == Render(lines);
    RenderedLines(lines);
    TextsAt(lines);
    forall i | 0 <= i < |lines| ensures LineReads(Texts(lines)[i], lines[i]) {
      LineReadsBack(lines[i]);
    }
  }

  /** The text is the tag's, followed by the value as a scalar if there is one. */
  ghost predicate LineReads(text: string, l: Line) {
    LabelText(l.tag) <= text &&
    if l.value.Some? then ReadScalar(text[|LabelText(l.tag)|..]) == Some(l.value.value)
    else text == LabelText(l.tag)
  }

  lemma LineReadsBack(l: Line)
    ensures LineReads(LineText(l), l)
  {
    if l.value.Some? {
      ScalarRoundTrip(l.value.value);
      assert LineText(l)[|LabelText(l.tag)|..] == Quoted(l.value.value);
    } else {
      assert LineText(l) == LabelText(l.tag);
    }
  }

  lemma {:induction false} TextsAt(lines: seq<Line>)
    ensures |Texts(lines)| == |lines| && forall i :: 0 <= i < |lines| ==> Texts(lines)[i] == LineText(lines[i])
  {
    if lines != [] { TextsAt(lines[1..]); }
  }

  // ---- the document says what the configuration says ----

  datatype UserRead = UserRead(
    name: string, groups: string, shell: string, sudo: string, doas: string, password: string, lock: bool, keys: seq<string>)

  datatype Section = Top | InUsers | InKeys | InPackages | InCommands

  datatype Reading = Reading(users: seq<UserRead>, keys: seq<string>, packages: seq<string>, commands: seq<string>, section: Section)

  function ValueOf(l: Line): string { if l.value.Some? then l.value.value else "" }

  /** A line that belongs to the user begun last. */
  function Put(u: UserRead, l: Line): UserRead {
    match l.tag
    case Groups => u.(groups := ValueOf(l))
    case Shell => u.(shell := ValueOf(l))
    case Sudo => u.(sudo := ValueOf(l))
    case Doas => u.(doas := ValueOf(l))
    case Password => u.(password := ValueOf(l))
    case Lock => u.(lock := true)
    case UserKey => u.(keys := u.keys + [ValueOf(l)])
    case _ => u
  }

  predicate OfUser(tag: Label) {
    tag.Groups? || tag.Shell? || tag.Sudo? || tag.Doas? || tag.Password? || tag.Lock? || tag.UserKeys? || tag.UserKey?
  }

  /** An item belongs to the heading above it. */
  function OnItem(r: Reading, v: string): Reading {
    match r.section
    case InKeys => r.(keys := r.keys + [v])
    case InPackages => r.(packages := r.packages + [v])
    case InCommands => r.(commands := r.commands + [v])
    case _ => r
  }

  function OnLine(r: Reading, l: Line): Reading {
    if OfUser(l.tag) then
      if r.users == [] then r
      else r.(users := r.users[..|r.users| - 1] + [Put(r.users[|r.users| - 1], l)])
    else
      match l.tag
      case Users => r.(section := InUsers)
      case Keys => r.(section := InKeys)
      case Packages => r.(section := InPackages)
      case Commands => r.(section := InCommands)
      case Name => r.(users := r.users + [UserRead(ValueOf(l), "", "", "", "", "", false, [])])
      case Item => OnItem(r, ValueOf(l))
      case _ => r
  }

  function ReadLines(r: Reading, lines: seq<Line>): Reading
    decreases |lines|
  {
    if lines == [] then r else ReadLines(OnLine(r, lines[0]), lines[1..])
  }

  const NOTHING := Reading([], [], [], [], Top)

  function Meant(u: User): UserRead {
    UserRead(u.name, Join(u.groups), u.shell, u.sudo, DoasRule(u.doas, u.name), u.password, u.lock, u.keys)
  }

  function AllMeant(users: seq<User>): seq<UserRead> {
    if users == [] then [] else [Meant(users[0])] + AllMeant(users[1..])
  }

  lemma {:induction false} ReadBoth(r: Reading, a: seq<Line>, b: seq<Line>)
    ensures ReadLines(r, a + b) == ReadLines(ReadLines(r, a), b)
    decreases |a|
  {
    if a == [] {
      assert a + b == b;
    } else {
      assert (a + b)[1..] == a[1..] + b;
      ReadBoth(OnLine(r, a[0]), a[1..], b);
    }
  }

  lemma {:induction false} ReadOne(r: Reading, l: Line)
    ensures ReadLines(r, [l]) == OnLine(r, l)
  {
    assert [l][1..] == [];
  }

  function WithUser(r: Reading, u: UserRead): Reading { r.(users := r.users + [u]) }

  lemma {:induction false} ReadUserLine(r: Reading, u: UserRead, l: Line)
    requires OfUser(l.tag)
    ensures ReadLines(WithUser(r, u), [l]) == WithUser(r, Put(u, l))
  {
    ReadOne(WithUser(r, u), l);
    var users := WithUser(r, u).users;
    assert users[..|users| - 1] == r.users;
  }

  lemma {:induction false} ReadUserKeys(r: Reading, u: UserRead, keys: seq<string>)
    ensures ReadLines(WithUser(r, u), Items(UserKey, keys)) == WithUser(r, u.(keys := u.keys + keys))
    decreases |keys|
  {
    if keys == [] {
      assert u.keys + keys == u.keys;
    } else {
      var l := Line(UserKey, Some(keys[0]));
      ReadBoth(WithUser(r, u), [l], Items(UserKey, keys[1..]));
      ReadUserLine(r, u, l);
      ReadUserKeys(r, Put(u, l), keys[1..]);
      assert u.keys + [keys[0]] + keys[1..] == u.keys + keys;
    }
  }

  /** One more part of a user's lines, read after the earlier ones. */
  lemma {:induction false} ReadPart(start: Reading, lines: seq<Line>, part: seq<Line>, r: Reading, u: UserRead, v: UserRead)
    returns (more: seq<Line>)
    requires ReadLines(start, lines) == WithUser(r, u)
    requires part == [] ==> u == v
    requires part != [] ==> |part| == 1 && OfUser(part[0].tag) && Put(u, part[0]) == v
    ensures more == lines + part && ReadLines(start, more) == WithUser(r, v)
  {
    more := lines + part;
    ReadBoth(start, lines, part);
    if part != [] {
      assert part == [part[0]];
      ReadUserLine(r, u, part[0]);
    }
  }

  function FirstLines(u: User): seq<Line> {
    Valued(Name, u.name) + GroupsLine(u) + IfSet(Shell, u.shell) + IfSet(Sudo, u.sudo)
  }

  function FirstMeant(u: User): UserRead {
    UserRead(u.name, Join(u.groups), u.shell, u.sudo, "", "", false, [])
  }

  lemma {:induction false} ReadFirst(r: Reading, u: User)
    ensures ReadLines(r, FirstLines(u)) == WithUser(r, FirstMeant(u))
  {
    var lines := Valued(Name, u.name);
    ReadOne(r, lines[0]);
    var v := UserRead(u.name, "", "", "", "", "", false, []);
    lines := ReadPart(r, lines, GroupsLine(u), r, v, v.(groups := Join(u.groups)));
    v := v.(groups := Join(u.groups));
    lines := ReadPart(r, lines, IfSet(Shell, u.shell), r, v, v.(shell := u.shell));
    v := v.(shell := u.shell);
    lines := ReadPart(r, lines, IfSet(Sudo, u.sudo), r, v, v.(sudo := u.sudo));
  }

  function LaterMeant(u: User): UserRead {
    FirstMeant(u).(doas := DoasRule(u.doas, u.name), password := u.password, lock := u.lock)
  }

  lemma {:induction false} ReadLater(r: Reading, first: seq<Line>, u: User) returns (lines: seq<Line>)
    requires ReadLines(r, first) == WithUser(r, FirstMeant(u))
    ensures lines == first + DoasLine(u) + IfSet(Password, u.password) + LockLine(u)
    ensures ReadLines(r, lines) == WithUser(r, LaterMeant(u))
  {
    var v := FirstMeant(u);
    lines := ReadPart(r, first, DoasLine(u), r, v, v.(doas := DoasRule(u.doas, u.name)));
    v := v.(doas := DoasRule(u.doas, u.name));
    lines := ReadPart(r, lines, IfSet(Password, u.password), r, v, v.(password := u.password));
    v := v.(password := u.password);
    lines := ReadPart(r, lines, LockLine(u), r, v, v.(lock := u.lock));
  }

  lemma {:induction false} ReadUser(r: Reading, u: User)
    ensures ReadLines(r, UserLines(u)) == WithUser(r, Meant(u))
  {
    ReadFirst(r, u);
    var lines := ReadLater(r, FirstLines(u), u);
    ReadBoth(r, lines, Listed(UserKeys, UserKey, u.keys));
    ReadKeyList(r, LaterMeant(u), u.keys);
    assert UserLines(u) == lines + Listed(UserKeys, UserKey, u.keys);
  }

  lemma {:induction false} ReadKeyList(r: Reading, u: UserRead, keys: seq<string>)
    requires u.keys == []
    ensures ReadLines(WithUser(r, u), Listed(UserKeys, UserKey, keys)) == WithUser(r, u.(keys := keys))
  {
    if keys != [] {
      ReadBoth(WithUser(r, u), Fixed(UserKeys), Items(UserKey, keys));
      ReadUserLine(r, u, Line(UserKeys, None));
      ReadUserKeys(r, u, keys);
      assert [] + keys == keys;
    }
  }

  lemma {:induction false} ReadInTurn(r: Reading, a: seq<Line>, b: seq<Line>, r1: Reading, r2: Reading)
    requires ReadLines(r, a) == r1 && ReadLines(r1, b) == r2
    ensures ReadLines(r, a + b) == r2
  {
    ReadBoth(r, a, b);
  }

  function WithUsers(r: Reading, us: seq<UserRead>): Reading { r.(users := r.users + us) }

  lemma {:induction false} UsersJoin(r: Reading, u: UserRead, us: seq<UserRead>)
    ensures WithUsers(WithUser(r, u), us) == WithUsers(r, [u] + us)
  {
    assert r.users + [u] + us == r.users + ([u] + us);
  }

  lemma {:induction false} ReadUsers(r: Reading, users: seq<User>)
    ensures ReadLines(r, AllUsers(users)) == WithUsers(r, AllMeant(users))
    decreases |users|
  {
    if users == [] {
      assert r.users + [] == r.users;
    } else {
      var u, rest := Meant(users[0]), AllMeant(users[1..]);
      ReadUser(r, users[0]);
      ReadUsers(WithUser(r, u), users[1..]);
      UsersJoin(r, u, rest);
      ReadInTurn(r, UserLines(users[0]), AllUsers(users[1..]), WithUser(r, u), WithUsers(r, [u] + rest));
    }
  }

  /** Items under the heading a section stands for. */
  function Under(r: Reading, values: seq<string>): Reading {
    match r.section
    case InKeys => r.(keys := r.keys + values)
    case InPackages => r.(packages := r.packages + values)
    case InCommands => r.(commands := r.commands + values)
    case _ => r
  }

  lemma {:induction false} ReadItems(r: Reading, values: seq<string>)
    ensures ReadLines(r, Items(Item, values)) == Under(r, values)
    decreases |values|
  {
    if values == [] {
      assert r.keys + [] == r.keys && r.packages + [] == r.packages && r.commands + [] == r.commands;
    } else {
      var l := Line(Item, Some(values[0]));
      ReadBoth(r, [l], Items(Item, values[1..]));
      ReadOne(r, l);
      ReadItems(OnItem(r, values[0]), values[1..]);
      assert [values[0]] + values[1..] == values;
      Rejoin(r.keys, values);
      Rejoin(r.packages, values);
      Rejoin(r.commands, values);
    }
  }

  lemma {:induction false} Rejoin(a: seq<string>, values: seq<string>)
    requires values != []
    ensures a + [values[0]] + values[1..] == a + values
  {
  }

  lemma {:induction false} ReadList(r: Reading, heading: Label, section: Section, values: seq<string>)
    requires OnLine(r, Line(heading, None)) == r.(section := section)
    ensures ReadLines(r, Listed(heading, Item, values)) ==
            if values == [] then r else Under(r.(section := section), values)
  {
    if values != [] {
      ReadBoth(r, Fixed(heading), Items(Item, values));
      ReadOne(r, Line(heading, None));
      ReadItems(r.(section := section), values);
    }
  }

  /** What is read, the section it ended in aside. */
  predicate Says(r: Reading, users: seq<UserRead>, keys: seq<string>, packages: seq<string>, commands: seq<string>) {
    r.users == users && r.keys == keys && r.packages == packages && r.commands == commands
  }

  lemma {:induction false} ReadHead(c: Config)
    ensures Says(ReadLines(NOTHING, Fixed(Header) + UsersPart(c)), AllMeant(c.users), [], [], [])
  {
    ReadBoth(NOTHING, Fixed(Header), UsersPart(c));
    ReadOne(NOTHING, Line(Header, None));
    if c.users != [] {
      ReadBoth(NOTHING, Fixed(Users), AllUsers(c.users));
      ReadOne(NOTHING, Line(Users, None));
      ReadUsers(NOTHING.(section := InUsers), c.users);
    }
  }

  lemma {:induction false} KeysSay(lines: seq<Line>, users: seq<UserRead>, keys: seq<string>)
    requires Says(ReadLines(NOTHING, lines), users, [], [], [])
    ensures Says(ReadLines(NOTHING, lines + Listed(Keys, Item, keys)), users, keys, [], [])
  {
    var r := ReadLines(NOTHING, lines);
    ReadBoth(NOTHING, lines, Listed(Keys, Item, keys));
    ReadList(r, Keys, InKeys, keys);
    assert [] + keys == keys;
  }

  lemma {:induction false} PackagesSay(lines: seq<Line>, users: seq<UserRead>, keys: seq<string>, packages: seq<string>)
    requires Says(ReadLines(NOTHING, lines), users, keys, [], [])
    ensures Says(ReadLines(NOTHING, lines + Listed(Packages, Item, packages)), users, keys, packages, [])
  {
    var r := ReadLines(NOTHING, lines);
    ReadBoth(NOTHING, lines, Listed(Packages, Item, packages));
    ReadList(r, Packages, InPackages, packages);
    assert [] + packages == packages;
  }

  lemma {:induction false} CommandsSay(lines: seq<Line>, users: seq<UserRead>, keys: seq<string>, packages: seq<string>,
                                       commands: seq<string>)
    requires Says(ReadLines(NOTHING, lines), users, keys, packages, [])
    ensures Says(ReadLines(NOTHING, lines + Listed(Commands, Item, commands)), users, keys, packages, commands)
  {
    var r := ReadLines(NOTHING, lines);
    ReadBoth(NOTHING, lines, Listed(Commands, Item, commands));
    ReadList(r, Commands, InCommands, commands);
    assert [] + commands == commands;
  }

  lemma {:induction false} DocumentSays(c: Config)
    ensures Says(ReadLines(NOTHING, Document(c)), AllMeant(c.users), c.keys, c.packages, c.commands)
  {
    ReadHead(c);
    KeysSay(Fixed(Header) + UsersPart(c), AllMeant(c.users), c.keys);
    PackagesSay(Fixed(Header) + UsersPart(c) + Listed(Keys, Item, c.keys), AllMeant(c.users), c.keys, c.packages);
    CommandsSay(Fixed(Header) + UsersPart(c) + Listed(Keys, Item, c.keys) + Listed(Packages, Item, c.packages),
                AllMeant(c.users), c.keys, c.packages, c.commands);
  }

  // ---- a line reads one way only ----

  lemma {:induction false} TagsDiffer(a: Label, b: Label)
    requires LabelText(a) == LabelText(b)
    ensures a == b
  {
    if |LabelText(a)| == 10 {
      assert LabelText(a)[4] == LabelText(b)[4];
    }
  }

  lemma {:induction false} NoQuoteInTag(l: Label)
    ensures '"' !in LabelText(l)
  {
  }

  /** The fixed text is what stands before the first quote. */
  lemma {:induction false} TagOfText(text: string, l: Line)
    requires LineReads(text, l)
    ensures LabelText(l.tag) == text[..IndexOf(text, '"')] && (l.value.Some? <==> '"' in text)
  {
    NoQuoteInTag(l.tag);
    if l.value.Some? {
      var n := |LabelText(l.tag)|;
      var tail := text[n..][1..];
      assert text == LabelText(l.tag) + ['"'] + tail;
      IndexOfAfter(LabelText(l.tag), '"', tail);
    }
  }

  lemma {:induction false} LineReadsOnce(text: string, a: Line, b: Line)
    requires LineReads(text, a) && LineReads(text, b)
    ensures a == b
  {
    TagOfText(text, a);
    TagOfText(text, b);
    TagsDiffer(a.tag, b.tag);
  }

  /** However its lines are read, the rendered user-data says what the
      configuration says: the users in order with all their fields, the keys,
      the packages and the commands. */
  lemma {:induction false} UserDataReadsBack(c: Config, lines: seq<Line>)
    requires c.custom == "" && AllRead(SplitLines(UserData(c)), lines)
    ensures lines == Document(c)
    ensures Says(ReadLines(NOTHING, lines), AllMeant(c.users), c.keys, c.packages, c.commands)
  {
    DocumentReads(c);
    var texts := SplitLines(UserData(c));
    forall i | 0 <= i < |lines| ensures lines[i] == Document(c)[i] {
      LineReadsOnce(texts[i], lines[i], Document(c)[i]);
    }
    assert lines == Document(c);
    DocumentSays(c);
  }

  // ---- a reader with its own keys ----

  /** What a line begins with, and what that makes it. */
  function TagOfKey(key: string): Option<Label> {
    if key == "  - name: " then Some(Name)
    else if key == "    groups: " then Some(Groups)
    else if key == "    shell: " then Some(Shell)
    else if key == "    sudo: " then Some(Sudo)
    else if key == "    doas: " then Some(Doas)
    else if key == "    plain_text_passwd: " then Some(Password)
    else if key == "    lock_passwd: true" then Some(Lock)
    else if key == "    ssh_authorized_keys:" then Some(UserKeys)
    else if key == "      - " then Some(UserKey)
    else if key == "  - " then Some(Item)
    else if key == "users:" then Some(Users)
    else if key == "ssh_authorized_keys:" then Some(Keys)
    else if key == "packages:" then Some(Packages)
    else if key == "runcmd:" then Some(Commands)
    else if key == "#cloud-config" then Some(Header)
    else None
  }

  /** A line as a reader takes it: what stands before the first quote decides what
      it is, and the rest is its value. */
  function ReadLine(text: string): Option<Line> {
    var i := IndexOf(text, '"');
    var tag, value := TagOfKey(text[..i]), ReadScalar(text[i..]);
    if tag.None? then None
    else if i == |text| then Some(Line(tag.value, None))
    else if value.None? then None
    else Some(Line(tag.value, value))
  }

  function ReadAllLines(texts: seq<string>): Option<seq<Line>> {
    if texts == [] then Some([])
    else
      var first, rest := ReadLine(texts[0]), ReadAllLines(texts[1..]);
      if first.None? || rest.None? then None else Some([first.value] + rest.value)
  }

  lemma {:induction false} KeysAgree(l: Label)
    ensures TagOfKey(LabelText(l)) == Some(l)
  {
  }

  lemma {:induction false} LineIsRead(text: string, l: Line)
    requires LineReads(text, l)
    ensures ReadLine(text) == Some(l)
  {
    TagOfText(text, l);
    KeysAgree(l.tag);
  }

  lemma {:induction false} LinesAreRead(texts: seq<string>, lines: seq<Line>)
    requires AllRead(texts, lines)
    ensures ReadAllLines(texts) == Some(lines)
    decreases |texts|
  {
    if texts == [] {
      assert lines == [];
    } else {
      LineIsRead(texts[0], lines[0]);
      LinesAreRead(texts[1..], lines[1..]);
      assert lines == [lines[0]] + lines[1..];
    }
  }

  /** Read by its keys, the rendered user-data gives back the configuration. */
  lemma {:induction false} UserDataIsRead(c: Config)
    requires c.custom == ""
    ensures var lines := ReadAllLines(SplitLines(UserData(c)));
            lines.Some? && Says(ReadLines(NOTHING, lines.value), AllMeant(c.users), c.keys, c.packages, c.commands)
  {
    DocumentReads(c);
    LinesAreRead(SplitLines(UserData(c)), Document(c));
    DocumentSays(c);
  }
}
