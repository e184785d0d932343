/** The managed block inside a .user.ini: finding it, replacing it, reading it back. */
module PhpIniText {
  import opened Text
  import opened PhpIni

  // ----- markers -----

  ghost predicate Marker(mk: string) {
    mk != "" && mk[0] == ';' && ';' !in mk[1..]
  }

  lemma Markers()
    ensures Marker(BEGIN) && Marker(END) && |BEGIN| == 27 && |END| == 25
    ensures BEGIN[..22] == END[..22] && BEGIN[22] != END[22]
  {
    assert MARK[0] == ';';
    assert ';' !in MARK[1..];
    assert BEGIN[1..] == MARK[1..] + "BEGIN" && END[1..] == MARK[1..] + "END";
  }

  predicate At(s: string, i: nat, mk: string) {
    i + |mk| <= |s| && s[i..i + |mk|] == mk
  }

  /** The start positions finditer reports for a literal, from position i on. */
  function Starts(s: string, mk: string, i: nat): seq<nat>
    requires mk != "" && i <= |s|
    decreases |s| - i
  {
    if i + |mk| > |s| then []
    else if At(s, i, mk) then [i] + Starts(s, mk, i + |mk|)
    else Starts(s, mk, i + 1)
  }

  datatype Parts = NoBlock | Malformed | Parts(before: string, block: string, after: string)

  /** _split */
  function Split(text: string): Parts {
    var starts, ends := Starts(text, BEGIN, 0), Starts(text, END, 0);
    if starts == [] && ends == [] then NoBlock
    else if |starts| != 1 || |ends| != 1 || ends[0] <= starts[0] then Malformed
    else if ends[0] + |END| > |text| then Malformed
    else Parts(text[..starts[0]], text[starts[0]..ends[0] + |END|], text[ends[0] + |END|..])
  }

  /** Two occurrences of a marker never overlap. */
  lemma Apart(s: string, mk: string, i: nat, j: nat)
    requires Marker(mk) && At(s, i, mk) && i < j < i + |mk| && j < |s|
    ensures s[j] != ';'
  {
    assert s[j] == s[i..i + |mk|][j - i];
    assert s[j] == mk[1..][j - i - 1];
  }

  ghost predicate Only(s: string, mk: string, from: nat, i: nat) {
    At(s, i, mk) && forall j :: from <= j && At(s, j, mk) ==> j == i
  }

  ghost predicate Nowhere(s: string, mk: string, from: nat) {
    forall j :: from <= j ==> !At(s, j, mk)
  }

  lemma {:induction false} StartsNone(s: string, mk: string, i: nat)
    requires Marker(mk) && i <= |s|
    ensures Starts(s, mk, i) == [] <==> Nowhere(s, mk, i)
    decreases |s| - i
  {
    if i + |mk| <= |s| && !At(s, i, mk) {
      StartsNone(s, mk, i + 1);
    }
  }

  lemma {:induction false} StartsOne(s: string, mk: string, i: nat)
    requires Marker(mk) && i <= |s|
    ensures |Starts(s, mk, i)| == 1 ==> i <= Starts(s, mk, i)[0] && Only(s, mk, i, Starts(s, mk, i)[0])
    decreases |s| - i
  {
    if i + |mk| <= |s| {
      if At(s, i, mk) {
        if |Starts(s, mk, i)| == 1 {
          StartsNone(s, mk, i + |mk|);
          forall j | i <= j && At(s, j, mk) ensures j == i {
            OnlyAtStart(s, mk, i, j);
          }
        }
      } else {
        StartsOne(s, mk, i + 1);
      }
    }
  }

  lemma OnlyAtStart(s: string, mk: string, i: nat, j: nat)
    requires Marker(mk) && At(s, i, mk) && Nowhere(s, mk, i + |mk|) && i <= j && At(s, j, mk)
    ensures i == j
  {
    if i < j {
      assert s[j] == s[j..j + |mk|][0];
      if j < i + |mk| {
        Apart(s, mk, i, j);
      }
    }
  }

  lemma {:induction false} StartsAt(s: string, mk: string, i: nat, p: nat)
    requires Marker(mk) && i <= p && Only(s, mk, i, p)
    ensures Starts(s, mk, i) == [p]
    decreases |s| - i
  {
    if i == p {
      StartsNone(s, mk, i + |mk|);
    } else {
      assert !At(s, i, mk);
      StartsAt(s, mk, i + 1, p);
    }
  }

  // ----- a text around a block -----

  /** Text that is the managed block: it starts with one marker, ends with the other, and has no further semicolon. */
  ghost predicate Blocklike(block: string) {
    && |block| > 27 + 25
    && block[..27] == BEGIN && block[|block| - 25..] == END
    && ';' !in block[27..|block| - 25]
  }

  lemma SemicolonsOfBlock(block: string, j: nat)
    requires Blocklike(block) && 0 < j < |block| && j != |block| - 25
    ensures block[j] != ';'
  {
    Markers();
    var n := |block|;
    if j < 27 {
      assert block[j] == block[..27][j] == BEGIN[1..][j - 1];
    } else if j < n - 25 {
      assert block[j] == block[27..n - 25][j - 27];
    } else {
      assert block[j] == block[n - 25..][j - (n - 25)] == END[1..][j - (n - 25) - 1];
    }
  }

  lemma Straddle(s: string, mk: string, j: nat, b: nat)
    requires Marker(mk) && j < b < j + |mk| && b < |s| && s[b] == ';'
    ensures !At(s, j, mk)
  {
    if At(s, j, mk) {
      Apart(s, mk, j, b);
    }
  }

  /** Where a marker can stand in before + block + after: inside before, inside after, or at its own place in the block. */
  lemma MarkerPlaces(before: string, block: string, after: string, mk: string, j: nat)
    requires Blocklike(block) && (mk == BEGIN || mk == END) && At(before + block + after, j, mk)
    ensures At(before, j, mk)
         || (j >= |before| + |block| && At(after, j - |before| - |block|, mk))
         || j == |before| + (if mk == BEGIN then 0 else |block| - 25)
  {
    Markers();
    var s := before + block + after;
    var b, e := |before|, |before| + |block|;
    assert s[j] == s[j..j + |mk|][0] == ';';
    assert s[b] == block[0] == block[..27][0];
    if j + |mk| <= b {
      SliceLeft(before, block + after, j, j + |mk|);
      assert s == before + (block + after);
    } else if j < b {
      Straddle(s, mk, j, b);
    } else if j < e {
      assert s[j] == block[j - b];
      if j == b || j - b == |block| - 25 {
        MarkerInBlock(before, block, after, mk, j);
      } else {
        SemicolonsOfBlock(block, j - b);
      }
    } else {
      SliceRight(before + block, after, j, j + |mk|);
    }
  }

  lemma SliceLeft(a: string, b: string, i: nat, j: nat)
    requires i <= j <= |a|
    ensures (a + b)[i..j] == a[i..j]
  {
    forall k | 0 <= k < j - i ensures (a + b)[i..j][k] == a[i..j][k] {
    }
  }

  lemma SliceRight(a: string, b: string, i: nat, j: nat)
    requires |a| <= i <= j <= |a| + |b|
    ensures (a + b)[i..j] == b[i - |a|..j - |a|]
  {
    forall k | 0 <= k < j - i ensures (a + b)[i..j][k] == b[i - |a|..j - |a|][k] {
      assert (a + b)[i + k] == b[i + k - |a|];
    }
  }

  lemma MarkerInBlock(before: string, block: string, after: string, mk: string, j: nat)
    requires Blocklike(block) && (mk == BEGIN || mk == END) && At(before + block + after, j, mk)
    requires j == |before| || j == |before| + |block| - 25
    ensures j == |before| + (if mk == BEGIN then 0 else |block| - 25)
  {
    Markers();
    var s := before + block + after;
    var b, n := |before|, |block|;
    assert s[j + 22] == s[j..j + |mk|][22] == mk[22];
    if j == b {
      assert s[j + 22] == block[..27][22] == BEGIN[22];
    } else {
      assert s[j + 22] == block[n - 25..][22] == END[22];
    }
  }

  /** Around a block without markers of its own, _split finds exactly that block. */
  lemma SplitFinds(before: string, block: string, after: string)
    requires Blocklike(block)
    requires Nowhere(before, BEGIN, 0) && Nowhere(before, END, 0) && Nowhere(after, BEGIN, 0) && Nowhere(after, END, 0)
    ensures Split(before + block + after) == Parts(before, block, after)
  {
    Markers();
    var s := before + block + after;
    var b, e := |before|, |before| + |block| - 25;
    assert s[b..b + 27] == block[..27];
    assert s[e..e + 25] == block[|block| - 25..];
    forall j | At(s, j, BEGIN) ensures j == b {
      MarkerPlaces(before, block, after, BEGIN, j);
    }
    forall j | At(s, j, END) ensures j == e {
      MarkerPlaces(before, block, after, END, j);
    }
    StartsAt(s, BEGIN, 0, b);
    StartsAt(s, END, 0, e);
    assert s[..b] == before && s[b..e + 25] == block && s[e + 25..] == after;
  }

  lemma AtInPart(s: string, mk: string, from: nat, to: nat, j: nat)
    requires from <= to <= |s| && At(s[from..to], j, mk)
    ensures At(s, from + j, mk) && from + j + |mk| <= to
  {
    var inner, outer := s[from..to][j..j + |mk|], s[from + j..from + j + |mk|];
    assert |inner| == |outer|;
    forall i | 0 <= i < |inner| ensures inner[i] == outer[i] {
      assert inner[i] == s[from..to][j + i] == s[from + j + i];
    }
  }

  lemma NowhereInPart(s: string, mk: string, p: nat, from: nat, to: nat)
    requires Only(s, mk, 0, p) && from <= to <= |s| && (to <= p || p < from) && mk != ""
    ensures Nowhere(s[from..to], mk, 0)
  {
    forall j | 0 <= j ensures !At(s[from..to], j, mk) {
      if At(s[from..to], j, mk) {
        AtInPart(s, mk, from, to, j);
      }
    }
  }

  /** Outside the block a split text has no markers. */
  lemma SplitOutside(text: string)
    requires Split(text).Parts?
    ensures var p := Split(text);
            && text == p.before + p.block + p.after
            && Nowhere(p.before, BEGIN, 0) && Nowhere(p.before, END, 0)
            && Nowhere(p.after, BEGIN, 0) && Nowhere(p.after, END, 0)
  {
    Markers();
    StartsOne(text, BEGIN, 0);
    StartsOne(text, END, 0);
    var b, e := Starts(text, BEGIN, 0)[0], Starts(text, END, 0)[0];
    NowhereInPart(text, BEGIN, b, 0, b);
    NowhereInPart(text, END, e, 0, b);
    NowhereInPart(text, BEGIN, b, e + |END|, |text|);
    NowhereInPart(text, END, e, e + |END|, |text|);
    assert text[0..b] == text[..b] && text[e + |END|..|text|] == text[e + |END|..];
  }

  lemma NoBlockNowhere(text: string)
    requires Split(text).NoBlock?
    ensures Nowhere(text, BEGIN, 0) && Nowhere(text, END, 0)
  {
    Markers();
    StartsNone(text, BEGIN, 0);
    StartsNone(text, END, 0);
  }

  // ----- the block of given settings -----

  function Line(key: Key, value: string): string {
    Name(key) + " = " + value
  }

  function Lines(s: Settings, order: seq<Key>): seq<string>
    requires s.Keys == KEYS
  {
    seq(|order|, i requires 0 <= i < |order| => Line(order[i], ValueOf(s, order[i])))
  }

  /** _managed_block; the order of the two switches among the keys is not fixed by the code. */
  function ManagedBlock(s: Settings, order: seq<Key>): string
    requires s.Keys == KEYS
  {
    Join([BEGIN] + Lines(s, order) + [END], "\n")
  }

  method ManagedBlockLoop(s: Settings, order: seq<Key>) returns (r: string)
    requires s.Keys == KEYS
    ensures r == ManagedBlock(s, order)
  {
    var lines := [BEGIN];
    ghost var all := Lines(s, order);
    for i := 0 to |order|
      invariant lines == [BEGIN] + all[..i]
    {
      var line := Line(order[i], ValueOf(s, order[i]));
      assert line == all[i];
      lines := lines + [line];
    }
    assert all[..|order|] == all;
    lines := lines + [END];
    r := Join(lines, "\n");
  }

  /** Characters that occur in keys and canonical values. */
  predicate Tame(c: char) {
    IsLetter(c) || IsDigit(c) || c == '_'
  }

  ghost predicate AllTame(s: string) {
    forall c :: c in s ==> Tame(c)
  }

  lemma NameTame(key: Key)
    ensures Name(key) != "" && AllTame(Name(key))
  {
    match key
    case MemoryLimit =>
    case UploadMaxFilesize =>
    case PostMaxSize =>
    case MaxExecutionTime =>
    case MaxInputTime =>
    case MaxInputVars =>
    case DisplayErrors =>
    case LogErrors =>
  }

  lemma ValueTame(key: Key, value: string)
    requires Canonical(key, value)
    ensures value != "" && AllTame(value)
  {
  }

  /** A line as the block has it: tame characters, blanks and one equals sign. */
  ghost predicate Quiet(line: string) {
    forall c :: c in line ==> Tame(c) || c == ' ' || c == '='
  }

  lemma LineQuiet(key: Key, value: string)
    requires Canonical(key, value)
    ensures Quiet(Line(key, value))
  {
    NameTame(key);
    ValueTame(key, value);
  }

  lemma {:induction false} QuietJoin(lines: seq<string>)
    requires forall i :: 0 <= i < |lines| ==> Quiet(lines[i])
    ensures forall c :: c in Join(lines, "\n") ==> Tame(c) || c == ' ' || c == '=' || c == '\n'
  {
    if |lines| > 1 {
      QuietJoin(lines[1..]);
    }
  }

  lemma {:induction false} JoinSnoc(lines: seq<string>, last: string)
    requires lines != []
    ensures Join(lines + [last], "\n") == Join(lines, "\n") + "\n" + last
  {
    if |lines| == 1 {
      assert (lines + [last])[1..] == [last];
    } else {
      assert (lines + [last])[1..] == lines[1..] + [last];
      JoinSnoc(lines[1..], last);
      assert lines[0] + "\n" + (Join(lines[1..], "\n") + "\n" + last)
          == lines[0] + "\n" + Join(lines[1..], "\n") + "\n" + last;
    }
  }

  lemma JoinCons(first: string, lines: seq<string>)
    requires lines != []
    ensures Join([first] + lines, "\n") == first + "\n" + Join(lines, "\n")
  {
    assert ([first] + lines)[1..] == lines;
  }

  lemma LinesQuiet(s: Settings, order: seq<Key>)
    requires s.Keys == KEYS && AllCanonical(s)
    ensures forall i :: 0 <= i < |order| ==> Quiet(Lines(s, order)[i])
  {
    forall i | 0 <= i < |order| ensures Quiet(Lines(s, order)[i]) {
      AllKeys(order[i]);
      LineQuiet(order[i], ValueOf(s, order[i]));
    }
  }

  /** The block is the opening marker, quiet lines and the closing marker. */
  lemma BlockShape(s: Settings, order: seq<Key>)
    requires s.Keys == KEYS && AllCanonical(s) && order != []
    ensures ManagedBlock(s, order) == BEGIN + "\n" + Join(Lines(s, order), "\n") + "\n" + END
  {
    JoinSnoc([BEGIN] + Lines(s, order), END);
    JoinCons(BEGIN, Lines(s, order));
  }

  lemma ThreePieces(begin: string, middle: string, end: string)
    ensures var block := begin + middle + end;
            block[..|begin|] == begin && block[|block| - |end|..] == end && block[|begin|..|block| - |end|] == middle
  {
  }

  lemma QuietMiddle(joined: string)
    requires forall c :: c in joined ==> Tame(c) || c == ' ' || c == '=' || c == '\n'
    ensures ';' !in "\n" + joined + "\n"
  {
  }

  lemma BlockIsBlocklike(s: Settings, order: seq<Key>)
    requires s.Keys == KEYS && AllCanonical(s) && order != []
    ensures Blocklike(ManagedBlock(s, order))
  {
    Markers();
    LinesQuiet(s, order);
    QuietJoin(Lines(s, order));
    var middle := "\n" + Join(Lines(s, order), "\n") + "\n";
    QuietMiddle(Join(Lines(s, order), "\n"));
    ThreePieces(BEGIN, middle, END);
    BlockText(s, order);
  }

  lemma BlockText(s: Settings, order: seq<Key>)
    requires s.Keys == KEYS && AllCanonical(s) && order != []
    ensures ManagedBlock(s, order) == BEGIN + ("\n" + Join(Lines(s, order), "\n") + "\n") + END
  {
    BlockShape(s, order);
    Regroup(BEGIN, Join(Lines(s, order), "\n"), END);
  }

  lemma Regroup(a: string, j: string, e: string)
    ensures a + "\n" + j + "\n" + e == a + ("\n" + j + "\n") + e
  {
  }

  // ----- reading a block back -----

  function FirstEquals(line: string): (n: nat)
    ensures n <= |line|
  {
    if line == "" || line[0] == '=' then 0 else 1 + FirstEquals(line[1..])
  }

  function AssignTo(left: string, right: string): Option<(Key, Raw)> {
    match KeyNamed(Strip(left))
    case None => None
    case Some(key) => Some((key, RawStr(Strip(right))))
  }

  function StrippedAssignment(line: string): Option<(Key, Raw)> {
    var n := FirstEquals(line);
    if line == "" || line[0] == ';' || n == |line| then None else AssignTo(line[..n], line[n + 1..])
  }

  /** One line of a block: the setting it assigns, if it assigns a known one. */
  function Assignment(raw: string): Option<(Key, Raw)> {
    StrippedAssignment(Strip(raw))
  }

  /** Assigning a key of the dict being filled: an existing key keeps its place. */
  function Assign(items: Items, item: (Key, Raw)): Items {
    if items == [] then [item]
    else if items[0].0 == item.0 then [item] + items[1..]
    else [items[0]] + Assign(items[1..], item)
  }

  function Assignments(lines: seq<string>): Items {
    if lines == [] then []
    else
      var items := Assignments(lines[..|lines| - 1]);
      match Assignment(lines[|lines| - 1])
      case None => items
      case Some(item) => Assign(items, item)
  }

  /** _parse_managed */
  function ParseManaged(block: string): Option<Settings> {
    Normalize(Assignments(SplitBreaks(block)))
  }

  method ParseManagedLoop(block: string) returns (r: Option<Settings>)
    ensures r == ParseManaged(block)
  {
    var lines := SplitBreaks(block);
    var items: Items := [];
    for i := 0 to |lines|
      invariant items == Assignments(lines[..i])
    {
      assert lines[..i + 1][..i] == lines[..i];
      var item := Assignment(lines[i]);
      if item.Some? {
        items := Assign(items, item.value);
      }
    }
    assert lines[..|lines|] == lines;
    r := NormalizeLoop(items);
  }

  lemma {:induction false} EqualsAt(a: string, b: string)
    requires '=' !in a
    ensures FirstEquals(a + "=" + b) == |a|
  {
    if a != "" {
      assert (a + "=" + b)[1..] == a[1..] + "=" + b;
      EqualsAt(a[1..], b);
    }
  }

  lemma TameStripped(s: string)
    requires AllTame(s)
    ensures Strip(s) == s
  {
    forall c | c in s ensures !IsSpace(c) {
      assert Tame(c);
    }
    StripNoSpaces(s);
  }

  lemma StripAround(s: string)
    requires s != "" && AllTame(s)
    ensures Strip(s + " ") == s && Strip(" " + s) == s
  {
    TameStripped(s);
    assert Tame(s[0]) && Tame(s[|s| - 1]);
    assert (s + " ")[..|s|] == s;
    assert (" " + s)[1..] == s;
    assert StripLeft(s + " ") == s + " ";
    assert StripRight(s + " ") == StripRight(s) == s;
    assert StripLeft(" " + s) == StripLeft(s) == s;
  }

  lemma TameChars(name: string)
    requires name != "" && AllTame(name)
    ensures '=' !in name + " " && !IsSpace(name[0]) && name[0] != ';' && !IsSpace(name[|name| - 1])
  {
    assert Tame(name[0]) && Tame(name[|name| - 1]);
  }

  lemma LineCut(left: string, right: string)
    requires left != "" && right != "" && '=' !in left && left[0] != ';'
    requires !IsSpace(left[0]) && !IsSpace(right[|right| - 1])
    ensures Strip(left + "=" + right) == left + "=" + right
    ensures StrippedAssignment(left + "=" + right) == AssignTo(left, right)
  {
    var line := left + "=" + right;
    assert line[0] == left[0] && line[|line| - 1] == right[|right| - 1];
    StripFixed(line);
    EqualsAt(left, right);
    assert line[..|left|] == left && line[|left| + 1..] == right;
  }

  lemma LineText(key: Key, value: string)
    ensures Line(key, value) == (Name(key) + " ") + "=" + (" " + value)
  {
  }

  lemma LineReads(key: Key, value: string)
    requires Canonical(key, value)
    ensures Assignment(Line(key, value)) == Some((key, RawStr(value)))
  {
    NameTame(key);
    ValueTame(key, value);
    NamesRead(key);
    TameChars(Name(key));
    TameChars(value);
    LineText(key, value);
    var left, right := Name(key) + " ", " " + value;
    LineCut(left, right);
    StripAround(Name(key));
    StripAround(value);
    assert Assignment(left + "=" + right) == AssignTo(left, right);
  }

  lemma {:induction false} AssignNew(items: Items, item: (Key, Raw))
    requires forall i :: 0 <= i < |items| ==> items[i].0 != item.0
    ensures Assign(items, item) == items + [item]
  {
    if items != [] {
      AssignNew(items[1..], item);
    }
  }

  lemma AssignmentsStep(lines: seq<string>, line: string)
    ensures Assignments(lines + [line])
         == match Assignment(line) case None => Assignments(lines) case Some(item) => Assign(Assignments(lines), item)
  {
    assert (lines + [line])[..|lines|] == lines;
  }

  lemma OrderSnoc(s: Settings, order: seq<Key>)
    requires s.Keys == KEYS && order != []
    ensures var front, last := order[..|order| - 1], order[|order| - 1];
            && Lines(s, order) == Lines(s, front) + [Line(last, ValueOf(s, last))]
            && AsItems(s, order) == AsItems(s, front) + [(last, RawStr(ValueOf(s, last)))]
  {
  }

  lemma NewAssignment(s: Settings, front: seq<Key>, last: Key)
    requires s.Keys == KEYS && last !in front
    ensures Assign(AsItems(s, front), (last, RawStr(ValueOf(s, last)))) == AsItems(s, front) + [(last, RawStr(ValueOf(s, last)))]
  {
    AssignNew(AsItems(s, front), (last, RawStr(ValueOf(s, last))));
  }

  lemma LinesReadStep(s: Settings, front: seq<Key>, last: Key, head: seq<string>)
    requires s.Keys == KEYS && AllCanonical(s) && last !in front
    requires Assignments(head + Lines(s, front)) == AsItems(s, front)
    ensures Assignments(head + Lines(s, front) + [Line(last, ValueOf(s, last))])
         == AsItems(s, front) + [(last, RawStr(ValueOf(s, last)))]
  {
    AllKeys(last);
    LineReads(last, ValueOf(s, last));
    AssignmentsStep(head + Lines(s, front), Line(last, ValueOf(s, last)));
    NewAssignment(s, front, last);
  }

  lemma {:induction false} LinesRead(s: Settings, order: seq<Key>, head: seq<string>)
    requires s.Keys == KEYS && AllCanonical(s) && Assignments(head) == []
    requires forall i, j :: 0 <= i < j < |order| ==> order[i] != order[j]
    ensures Assignments(head + Lines(s, order)) == AsItems(s, order)
  {
    if order == [] {
      assert head + Lines(s, order) == head;
    } else {
      var front, last := order[..|order| - 1], order[|order| - 1];
      LinesRead(s, front, head);
      LinesReadStep(s, front, last, head);
      OrderSnoc(s, order);
      Regroup3(head, Lines(s, front), [Line(last, ValueOf(s, last))]);
    }
  }

  lemma Regroup3<T>(a: seq<T>, b: seq<T>, c: seq<T>)
    ensures a + (b + c) == a + b + c
  {
  }

  // ----- writing the settings into a text -----

  /** The new text of the file, or None where _split refuses the old one. */
  function SetText(old_: string, s: Settings, order: seq<Key>): Option<string>
    requires s.Keys == KEYS
  {
    match Split(old_)
    case Malformed => None
    case NoBlock =>
      var prefix := if old_ != "" && !EndsWith(old_, "\n") then old_ + "\n" else old_;
      Some(prefix + ManagedBlock(s, order) + "\n")
    case Parts(before, _, after) =>
      var text := before + ManagedBlock(s, order) + after;
      Some(if EndsWith(text, "\n") then text else text + "\n")
  }

  /** What stands before and after the block in the text SetText writes. */
  function Outside(old_: string): (string, string)
    requires !Split(old_).Malformed?
  {
    match Split(old_)
    case NoBlock => (if old_ != "" && !EndsWith(old_, "\n") then old_ + "\n" else old_, "\n")
    case Parts(before, _, after) => (before, if after != "" && EndsWith(after, "\n") then after else after + "\n")
  }

  lemma NewlineFree(mk: string)
    requires mk == BEGIN || mk == END
    ensures '\n' !in mk
  {
    assert '\n' !in MARK;
    assert '\n' !in "BEGIN" && '\n' !in "END";
  }

  lemma NotLast(t: string, mk: string, j: nat)
    requires j + |mk| == |t| + 1 && mk != "" && '\n' !in mk
    ensures !At(t + "\n", j, mk)
  {
    assert (t + "\n")[j..j + |mk|][|mk| - 1] == '\n';
    assert mk[|mk| - 1] in mk;
  }

  lemma AppendNewline(t: string, mk: string)
    requires (mk == BEGIN || mk == END) && Nowhere(t, mk, 0)
    ensures Nowhere(t + "\n", mk, 0)
  {
    Markers();
    NewlineFree(mk);
    forall j | 0 <= j ensures !At(t + "\n", j, mk) {
      if j + |mk| == |t| + 1 {
        NotLast(t, mk, j);
      } else if j + |mk| <= |t| {
        assert (t + "\n")[j..j + |mk|] == t[j..j + |mk|];
        assert !At(t, j, mk);
      }
    }
  }

  lemma NewlineAlone(mk: string)
    requires mk == BEGIN || mk == END
    ensures Nowhere("\n", mk, 0)
  {
    Markers();
  }

  lemma OutsideClean(old_: string)
    requires !Split(old_).Malformed?
    ensures var (before, after) := Outside(old_);
            Nowhere(before, BEGIN, 0) && Nowhere(before, END, 0) && Nowhere(after, BEGIN, 0) && Nowhere(after, END, 0)
  {
    NewlineAlone(BEGIN);
    NewlineAlone(END);
    if Split(old_).NoBlock? {
      NoBlockNowhere(old_);
      AppendNewline(old_, BEGIN);
      AppendNewline(old_, END);
    } else {
      SplitOutside(old_);
      AppendNewline(Split(old_).after, BEGIN);
      AppendNewline(Split(old_).after, END);
    }
  }

  lemma EndsInLine(before: string, block: string, after: string)
    requires Blocklike(block)
    ensures EndsWith(before + block + after, "\n") <==> after != "" && EndsWith(after, "\n")
  {
    Markers();
    NewlineFree(END);
    var text := before + block + after;
    if after == "" {
      assert text[|text| - 1] == block[|block| - 25..][24] == END[24];
      assert END[24] in END;
    } else {
      assert text[|text| - 1] == after[|after| - 1];
    }
  }

  /** The new text is the block with the old surroundings, closed by a line end. */
  lemma SetTextIs(old_: string, s: Settings, order: seq<Key>)
    requires Normal(s) && Listing(order) && !Split(old_).Malformed?
    ensures var (before, after) := Outside(old_);
            SetText(old_, s, order) == Some(before + ManagedBlock(s, order) + after)
  {
    ListingSome(order);
    BlockIsBlocklike(s, order);
    var block := ManagedBlock(s, order);
    match Split(old_)
    case NoBlock =>
    case Parts(before, _, after) =>
      EndsInLine(before, block, after);
      assert before + block + after + "\n" == before + block + (after + "\n");
  }

  lemma ListingSome(order: seq<Key>)
    requires Listing(order)
    ensures order != []
  {
    AllKeys(MemoryLimit);
  }

  /** Reading the block of given settings gives those settings. */
  lemma BlockReads(s: Settings, order: seq<Key>)
    requires Normal(s) && Listing(order)
    ensures ParseManaged(ManagedBlock(s, order)) == Some(s)
  {
    var lines := [BEGIN] + Lines(s, order) + [END];
    MarkersUnread();
    LinesRead(s, order, [BEGIN]);
    AssignmentsStep([BEGIN] + Lines(s, order), END);
    LinesBreakFree(s, order);
    SplitJoined(lines);
    NormalFixed(s, order);
  }

  lemma MarkerChars(mk: string)
    requires mk == BEGIN || mk == END
    ensures forall c :: c in mk ==> !IsBreak(c)
    ensures mk != "" && !IsSpace(mk[0]) && !IsSpace(mk[|mk| - 1]) && mk[0] == ';'
  {
    assert forall c :: c in MARK ==> !IsBreak(c);
    assert forall c :: c in "BEGIN" ==> !IsSpace(c);
    assert forall c :: c in "END" ==> !IsSpace(c);
    assert MARK[0] == ';';
  }

  lemma MarkerUnread(mk: string)
    requires mk == BEGIN || mk == END
    ensures Assignment(mk) == None && (forall c :: c in mk ==> !IsBreak(c))
  {
    MarkerChars(mk);
    StripFixed(mk);
  }

  lemma MarkersUnread()
    ensures Assignment(BEGIN) == None && Assignment(END) == None
    ensures (forall c :: c in BEGIN ==> !IsBreak(c)) && (forall c :: c in END ==> !IsBreak(c))
    ensures Assignments([BEGIN]) == []
  {
    MarkerUnread(BEGIN);
    MarkerUnread(END);
    AssignmentsStep([], BEGIN);
    assert [] + [BEGIN] == [BEGIN];
  }

  ghost predicate BreakFree(line: string) {
    forall c :: c in line ==> !IsBreak(c)
  }

  lemma QuietBreakFree(line: string)
    requires Quiet(line)
    ensures BreakFree(line)
  {
  }

  lemma LinesBreakFree(s: Settings, order: seq<Key>)
    requires s.Keys == KEYS && AllCanonical(s)
    ensures var lines := [BEGIN] + Lines(s, order) + [END];
            forall i :: 0 <= i < |lines| ==> forall c :: c in lines[i] ==> !IsBreak(c)
  {
    MarkersUnread();
    LinesQuiet(s, order);
    var middle := Lines(s, order);
    var lines := [BEGIN] + middle + [END];
    forall i | 0 <= i < |lines| ensures BreakFree(lines[i]) {
      if 0 < i < |lines| - 1 {
        assert lines[i] == middle[i - 1];
        QuietBreakFree(middle[i - 1]);
      } else if i == 0 {
        assert BreakFree(BEGIN);
      } else {
        assert BreakFree(END);
      }
    }
    BreakFreeAll(lines);
  }

  lemma BreakFreeAll(lines: seq<string>)
    requires forall i :: 0 <= i < |lines| ==> BreakFree(lines[i])
    ensures forall i :: 0 <= i < |lines| ==> forall c :: c in lines[i] ==> !IsBreak(c)
  {
  }

  // ----- the laws -----

  /**
   * Put then get: after writing normalised settings into any text _split accepts, in either order of the switches,
   * the text has exactly one block, with the old surroundings up to a line end, and the block reads back as written.
   */
  lemma GetAfterSet(old_: string, s: Settings, order: seq<Key>)
    requires Normal(s) && Listing(order) && !Split(old_).Malformed?
    ensures var (before, after) := Outside(old_);
            var text := SetText(old_, s, order).value;
            && SetText(old_, s, order).Some?
            && Split(text) == Parts(before, ManagedBlock(s, order), after)
            && ParseManaged(Split(text).block) == Some(s)
  {
    SetTextIs(old_, s, order);
    OutsideClean(old_);
    ListingSome(order);
    BlockIsBlocklike(s, order);
    var (before, after) := Outside(old_);
    SplitFinds(before, ManagedBlock(s, order), after);
    BlockReads(s, order);
  }

  lemma OutsideKept(old_: string, s: Settings, order: seq<Key>)
    requires Normal(s) && Listing(order) && !Split(old_).Malformed?
    ensures SetText(old_, s, order).Some? && !Split(SetText(old_, s, order).value).Malformed?
    ensures Outside(SetText(old_, s, order).value) == Outside(old_)
  {
    GetAfterSet(old_, s, order);
    var after := Outside(old_).1;
    assert after != "" && EndsWith(after, "\n");
  }

  /** Put then put: the second settings replace the first and nothing else. */
  lemma SetAfterSet(old_: string, a: Settings, orderA: seq<Key>, b: Settings, orderB: seq<Key>)
    requires Normal(a) && Normal(b) && Listing(orderA) && Listing(orderB) && !Split(old_).Malformed?
    ensures var mid := SetText(old_, a, orderA);
            mid.Some? && SetText(mid.value, b, orderB) == SetText(old_, b, orderB)
  {
    OutsideKept(old_, a, orderA);
    SetTextIs(old_, b, orderB);
    SetTextIs(SetText(old_, a, orderA).value, b, orderB);
  }
}

/** The file of one site. */
module PhpIniFile {
  import opened Text
  import opened PhpIni
  import opened PhpIniText

  /** UTF-8 length. */
  function Utf8Size(s: string): nat {
    if s == "" then 0
    else
      var c := s[0];
      (if c < '\U{0080}' then 1 else if c < '\U{0800}' then 2 else if c < '\U{10000}' then 3 else 4) + Utf8Size(s[1..])
  }

  datatype Outcome = Done(settings: Settings) | Rejected | Failed

  datatype Reading = Unmanaged | Managed(settings: Settings) | Unreadable

  /** The request's items by known key, or None when a key is unknown. */
  function KnownItems(request: seq<(string, Raw)>): Option<Items> {
    if request == [] then Some([])
    else
      match (KnownItems(request[..|request| - 1]), KeyNamed(request[|request| - 1].0))
      case (Some(items), Some(key)) => Some(items + [(key, request[|request| - 1].1)])
      case _ => None
  }

  /** get_settings on the raw content of an existing file, which is read in text mode. */
  function Read(content: string): Reading {
    match Split(NormalizeNewlines(content))
    case NoBlock => Unmanaged
    case Malformed => Unreadable
    case Parts(_, block, _) =>
      match ParseManaged(block)
      case None => Unreadable
      case Some(s) => Managed(s)
  }

  /** What set_settings writes: None when the request, the old text or the size is refused. */
  function Written(content: Option<string>, request: seq<(string, Raw)>, order: seq<Key>): Option<(Settings, string)> {
    var oldText := match content case None => "" case Some(c) => NormalizeNewlines(c);
    if content.Some? && Utf8Size(content.value) > MAX_INI_SIZE then None
    else
      match KnownItems(request)
      case None => None
      case Some(items) =>
        match Normalize(items)
        case None => None
        case Some(s) =>
          NormalizeGivesNormal(items);
          match SetText(oldText, s, order)
          case None => None
          case Some(text) => if Utf8Size(text) > MAX_INI_SIZE then None else Some((s, text))
  }

  class SiteIni {
    /** The raw content of .user.ini, if the file exists. */
    var content: Option<string>

    constructor (initial: Option<string>)
      ensures content == initial
    {
      content := initial;
    }

    /** set_settings; `writeOk` says whether the replacing write succeeds. */
    method SetSettings(request: seq<(string, Raw)>, order: seq<Key>, writeOk: bool) returns (r: Outcome)
      requires Listing(order)
      modifies this
      ensures (r, content) == SetResult(old(content), request, order, writeOk)
    {
      var oldText := match content case None => "" case Some(c) => NormalizeNewlines(c);
      var plan := Written(content, request, order);
      if plan.None? {
        return Rejected;
      }
      var (s, text) := plan.value;
      CheckPasses(content, request, order);
      if writeOk {
        content := Some(text);
        var check := Read(text);
        if check == Managed(s) {
          return Done(s);
        }
      }
      if content.Some? {
        NewlinesEmpty(content.value);
        if oldText != "" {
          content := Some(oldText);
        } else {
          content := None;
        }
      }
      r := Failed;
    }
  }

  /**
   * Outcome and file content after set_settings. A failed write is followed by the code's own restoration, which writes
   * the old text back, or removes the file when that text is empty.
   */
  function SetResult(content: Option<string>, request: seq<(string, Raw)>, order: seq<Key>, writeOk: bool)
    : (Outcome, Option<string>)
  {
    match Written(content, request, order)
    case None => (Rejected, content)
    case Some((s, text)) => if writeOk then (Done(s), Some(text)) else (Failed, Restored(content))
  }

  function Restored(before: Option<string>): Option<string> {
    if before.None? || before.value == "" then None else Some(NormalizeNewlines(before.value))
  }

  /** A successful call leaves a file that get_settings reads as exactly the normalised settings. */
  lemma DoneReadsBack(content: Option<string>, request: seq<(string, Raw)>, order: seq<Key>)
    requires Listing(order) && SetResult(content, request, order, true).0.Done?
    ensures var (r, after) := SetResult(content, request, order, true);
            after.Some? && Read(after.value) == Managed(r.settings)
  {
    CheckPasses(content, request, order);
  }

  lemma {:induction false} NewlinesEmpty(s: string)
    ensures NormalizeNewlines(s) == "" <==> s == ""
  {
  }

  /** The verification after a successful write cannot fail: what was written has no carriage return and reads back. */
  lemma CheckPasses(content: Option<string>, request: seq<(string, Raw)>, order: seq<Key>)
    requires Listing(order) && Written(content, request, order).Some?
    ensures Read(Written(content, request, order).value.1) == Managed(Written(content, request, order).value.0)
  {
    var oldText := match content case None => "" case Some(c) => NormalizeNewlines(c);
    var (s, text) := Written(content, request, order).value;
    NormalizeGivesNormal(KnownItems(request).value);
    GetAfterSet(oldText, s, order);
    SetTextIs(oldText, s, order);
    NoReturns(oldText, s, order);
    NewlinesFixed(text);
  }

  lemma NoReturns(oldText: string, s: Settings, order: seq<Key>)
    requires Normal(s) && Listing(order) && !Split(oldText).Malformed? && '\r' !in oldText
    ensures var (before, after) := Outside(oldText); '\r' !in before + ManagedBlock(s, order) + after
  {
    if Split(oldText).Parts? {
      SplitOutside(oldText);
      var p := Split(oldText);
      assert forall c :: c in p.before || c in p.after ==> c in oldText;
    }
    BlockNoReturns(s, order);
  }

  lemma MarkersNoReturn()
    ensures '\r' !in BEGIN && '\r' !in END
  {
    MarkersUnread();
    assert IsBreak('\r');
  }

  lemma QuietNoReturn(joined: string)
    requires forall c :: c in joined ==> Tame(c) || c == ' ' || c == '=' || c == '\n'
    ensures '\r' !in "\n" + joined + "\n"
  {
  }

  lemma BlockNoReturns(s: Settings, order: seq<Key>)
    requires Normal(s) && Listing(order)
    ensures '\r' !in ManagedBlock(s, order)
  {
    ListingSome(order);
    BlockText(s, order);
    LinesQuiet(s, order);
    QuietJoin(Lines(s, order));
    QuietNoReturn(Join(Lines(s, order), "\n"));
    MarkersNoReturn();
  }

  /**
   * What a failed write costs. The file is as before exactly when it was missing, or had content without carriage
   * returns: an existing empty file disappears and other line ends are rewritten.
   */
  lemma FailedWriteRestores(before: Option<string>)
    ensures Restored(before) == before <==> (before.None? || (before.value != "" && '\r' !in before.value))
  {
    if before.Some? {
      NewlinesFixed(before.value);
    }
  }
}
