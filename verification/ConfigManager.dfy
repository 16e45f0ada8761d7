/** The configuration file: one `key=value` line per setting, printed and read back. */
module ConfigManagers {
  import opened Basics

  datatype Config = Config(username: string, keybinds: map<string, int>)

  const DEFAULTS: map<string, int> := map["UP" := 87, "DOWN" := 83, "LEFT" := 65, "RIGHT" := 68, "PRESSED" := 32]

  predicate Fits(n: int) {
    -0x8000_0000 <= n < 0x8000_0000
  }

  // ---------- numbers ----------

  predicate IsDigit(c: char) {
    '0' <= c <= '9'
  }

  predicate IsSpace(c: char) {
    c == ' ' || c == '\t' || c == '\n' || c == '\U{0B}' || c == '\U{0C}' || c == '\r'
  }

  function Natural(n: nat): (s: string)
    ensures |s| > 0 && forall i :: 0 <= i < |s| ==> IsDigit(s[i])
  {
    var last := ['0' + (n % 10) as char];
    if n < 10 then last else Natural(n / 10) + last
  }

  function Decimal(n: int): string {
    if n < 0 then "-" + Natural(-n) else Natural(n)
  }

  // The longest prefix of digits.
  function Digits(s: string): (d: string)
    ensures d <= s && forall i :: 0 <= i < |d| ==> IsDigit(d[i])
  {
    if s == "" || !IsDigit(s[0]) then "" else [s[0]] + Digits(s[1..])
  }

  function ValueOf(digits: string): nat
    requires forall i :: 0 <= i < |digits| ==> IsDigit(digits[i])
  {
    if |digits| == 0 then 0
    else
      var last := digits[|digits| - 1];
      assert IsDigit(last);
      10 * ValueOf(digits[..|digits| - 1]) + (last as nat - '0' as nat)
  }

  function SkipSpaces(s: string): string {
    if s != "" && IsSpace(s[0]) then SkipSpaces(s[1..]) else s
  }

  function Unsigned(s: string): (n: nat) {
    ValueOf(Digits(s))
  }

  // An optional sign and digits; what follows is ignored.
  function Signed(s: string): Option<int> {
    var negative := s != "" && s[0] == '-';
    var t := if negative || (s != "" && s[0] == '+') then s[1..] else s;
    var n: int := if negative then 0 - Unsigned(t) else Unsigned(t);
    if Digits(t) == "" || !Fits(n) then None else Some(n)
  }

  // std::stoi, which skips leading white space; None where it throws.
  function Stoi(s: string): Option<int> {
    Signed(SkipSpaces(s))
  }

  lemma {:induction false} DigitsOfDigits(s: string)
    requires forall i :: 0 <= i < |s| ==> IsDigit(s[i])
    ensures Digits(s) == s
  {
    if s != "" {
      DigitsOfDigits(s[1..]);
    }
  }

  lemma {:induction false} ValueOfNatural(n: nat)
    ensures ValueOf(Natural(n)) == n
  {
    var s := Natural(n);
    if n >= 10 {
      ValueOfNatural(n / 10);
      assert s[..|s| - 1] == Natural(n / 10);
    }
  }

  lemma UnsignedNatural(n: nat)
    ensures Digits(Natural(n)) == Natural(n) && Unsigned(Natural(n)) == n
  {
    DigitsOfDigits(Natural(n));
    ValueOfNatural(n);
  }

  /** Decimal printing and reading are inverse, negative numbers included. */
  lemma StoiDecimal(n: int)
    requires Fits(n)
    ensures Stoi(Decimal(n)) == Some(n)
  {
    hide Natural, Digits, Unsigned;
    if n < 0 {
      UnsignedNatural(-n);
      assert Decimal(n)[0] == '-' && Decimal(n)[1..] == Natural(-n);
    } else {
      UnsignedNatural(n);
      assert IsDigit(Decimal(n)[0]);
    }
  }

  predicate Blank(s: string) {
    forall c :: c in s ==> c in {' ', '\t', '\n', '\U{0B}', '\U{0C}', '\r'}
  }

  lemma {:induction false} SpacesSkipped(spaces: string, s: string)
    requires Blank(spaces) && s != "" && !IsSpace(s[0])
    ensures SkipSpaces(spaces + s) == s
  {
    if spaces != "" {
      assert spaces[0] in spaces && forall c :: c in spaces[1..] ==> c in spaces;
      assert (spaces + s)[1..] == spaces[1..] + s;
      SpacesSkipped(spaces[1..], s);
    } else {
      assert spaces + s == s;
    }
  }

  lemma {:induction false} DigitsStop(digits: string, junk: string)
    requires forall i :: 0 <= i < |digits| ==> IsDigit(digits[i])
    requires junk == "" || !IsDigit(junk[0])
    ensures Digits(digits + junk) == digits
  {
    if digits != "" {
      assert (digits + junk)[1..] == digits[1..] + junk;
      DigitsStop(digits[1..], junk);
    } else {
      assert digits + junk == junk;
    }
  }

  /** A number is read after any white space, with or without a sign, and up to the first character that is no
      digit. */
  lemma StoiReads(spaces: string, n: nat, junk: string)
    requires Blank(spaces) && n < 0x8000_0000 && (junk == "" || !IsDigit(junk[0]))
    ensures Stoi(spaces + (Natural(n) + junk)) == Some(n)
    ensures Stoi(spaces + ("+" + Natural(n) + junk)) == Some(n)
    ensures Stoi(spaces + ("-" + Natural(n) + junk)) == Some(0 - n as int)
  {
    hide Natural, Digits, SkipSpaces;
    var digits := Natural(n);
    assert IsDigit(digits[0]);
    ValueOfNatural(n);
    DigitsStop(digits, junk);
    SpacesSkipped(spaces, digits + junk);
    SpacesSkipped(spaces, "+" + digits + junk);
    SpacesSkipped(spaces, "-" + digits + junk);
    assert ("+" + digits + junk)[1..] == digits + junk && ("-" + digits + junk)[1..] == digits + junk;
  }

  // ---------- lines ----------

  function Find(s: string, c: char): (i: nat)
    ensures i <= |s| && c !in s[..i]
    ensures i < |s| ==> s[i] == c
  {
    if s == "" || s[0] == c then 0
    else
      var i := Find(s[1..], c) + 1;
      assert s[..i] == [s[0]] + s[1..][..i - 1];
      i
  }

  // One line of the file: a key up to the first '=' and a value that is not empty.
  function ApplyLine(c: Config, line: string): Config {
    var i := Find(line, '=');
    if i + 1 >= |line| then c
    else
      var key, value := line[..i], line[i + 1..];
      if key == "username" then c.(username := value)
      else if Stoi(value).None? then c
      else c.(keybinds := c.keybinds[key := Stoi(value).value])
  }

  // The rest of the file, read into c. The last line need not end in a newline.
  function Load(c: Config, text: string): Config
    decreases |text|
  {
    if text == "" then c
    else
      var i := Find(text, '\n');
      Load(ApplyLine(c, text[..i]), if i == |text| then "" else text[i + 1..])
  }

  const INITIAL := Config("", DEFAULTS)

  function KeyLine(key: string, value: int): string {
    key + "=" + Decimal(value) + "\n"
  }

  function KeyLines(keybinds: map<string, int>, order: seq<string>): string
    requires forall k :: k in order ==> k in keybinds
  {
    if order == [] then "" else KeyLine(order[0], keybinds[order[0]]) + KeyLines(keybinds, order[1..])
  }

  // The order in which a map is walked through: every key once.
  ghost predicate Enumerates(order: seq<string>, keybinds: map<string, int>) {
    forall k :: k in order <==> k in keybinds
  }

  function Save(c: Config, order: seq<string>): string
    requires forall k :: k in order ==> k in c.keybinds
  {
    "username=" + c.username + "\n" + KeyLines(c.keybinds, order)
  }

  method SaveConfig(c: Config, order: seq<string>) returns (file: string)
    requires forall k :: k in order ==> k in c.keybinds
    ensures file == Save(c, order)
  {
    file := "username=" + c.username + "\n";
    for i := 0 to |order|
      invariant file + KeyLines(c.keybinds, order[i..]) == Save(c, order)
    {
      file := file + KeyLine(order[i], c.keybinds[order[i]]);
    }
  }

  // `file` is None when it cannot be opened.
  method LoadConfig(file: Option<string>) returns (c: Config)
    ensures c == if file.None? then INITIAL else Load(INITIAL, file.value)
  {
    c := INITIAL;
    if file.None? {
      return;
    }
    var rest := file.value;
    while rest != ""
      invariant Load(c, rest) == Load(INITIAL, file.value)
      decreases |rest|
    {
      var i := Find(rest, '\n');
      var line := rest[..i];
      rest := if i == |rest| then "" else rest[i + 1..];
      var j := Find(line, '=');
      if j + 1 < |line| {
        var key, value := line[..j], line[j + 1..];
        if key == "username" {
          c := c.(username := value);
        } else {
          var n := Stoi(value);
          if n.Some? {
            c := c.(keybinds := c.keybinds[key := n.value]);
          }
        }
      }
    }
  }

  /** Without a file the username is empty and the keys are W, S, A, D and the space bar. */
  lemma DefaultKeys()
    ensures INITIAL.username == "" && INITIAL.keybinds.Keys == {"UP", "DOWN", "LEFT", "RIGHT", "PRESSED"}
    ensures var k := INITIAL.keybinds;
      && k["UP"] == 'W' as int && k["DOWN"] == 'S' as int && k["LEFT"] == 'A' as int && k["RIGHT"] == 'D' as int
      && k["PRESSED"] == ' ' as int
  {
  }

  /** The file starts with the line of the username, and every key that is walked through has its line, which
      begins after the end of another. */
  lemma LineOfKey(c: Config, order: seq<string>, i: nat)
    requires (forall k :: k in order ==> k in c.keybinds) && i < |order|
    ensures "username=" + c.username + "\n" <= Save(c, order)
    ensures exists before, rest ::
              && Save(c, order) == before + (order[i] + "=" + Decimal(c.keybinds[order[i]]) + "\n") + rest
              && before != "" && before[|before| - 1] == '\n'
  {
    hide Decimal, KeyLines;
    var name := "username=" + c.username + "\n";
    var lines, line, rest := LinesAround(c.keybinds, order, i);
    assert Save(c, order) == name + (lines + line + rest) == (name + lines) + line + rest;
  }

  lemma {:induction false} LinesAround(keybinds: map<string, int>, order: seq<string>, i: nat)
    returns (lines: string, line: string, rest: string)
    requires (forall k :: k in order ==> k in keybinds) && i < |order|
    ensures KeyLines(keybinds, order) == lines + line + rest
    ensures line == order[i] + "=" + Decimal(keybinds[order[i]]) + "\n"
    ensures lines == "" || lines[|lines| - 1] == '\n'
  {
    hide Decimal;
    if i == 0 {
      lines, line, rest := "", KeyLine(order[0], keybinds[order[0]]), KeyLines(keybinds, order[1..]);
    } else {
      var first := KeyLine(order[0], keybinds[order[0]]);
      lines, line, rest := LinesAround(keybinds, order[1..], i - 1);
      assert first + (lines + line + rest) == (first + lines) + line + rest;
      assert first[|first| - 1] == '\n';
      lines := first + lines;
    }
  }

  // ---------- round trip ----------

  predicate CleanKey(key: string) {
    '=' !in key && '\n' !in key && key != "username"
  }

  // What can be written and read back.
  ghost predicate Clean(c: Config) {
    '\n' !in c.username && forall k :: k in c.keybinds ==> CleanKey(k)
  }

  ghost predicate Wide(keybinds: map<string, int>) {
    forall k :: k in keybinds ==> Fits(keybinds[k])
  }

  lemma FindIs(s: string, c: char, i: nat)
    requires i < |s| && s[i] == c && c !in s[..i]
    ensures Find(s, c) == i
  {
  }

  lemma FirstLine(c: Config, line: string, rest: string)
    requires '\n' !in line
    ensures Load(c, line + "\n" + rest) == Load(ApplyLine(c, line), rest)
  {
    var text := line + "\n" + rest;
    assert text[..|line|] == line;
    FindIs(text, '\n', |line|);
    assert text[|line| + 1..] == rest;
  }

  lemma NoNewlineInNumbers(n: int)
    ensures '\n' !in Decimal(n) && Decimal(n) != ""
  {
    assert !IsDigit('\n');
  }

  lemma KeyLineApplies(c: Config, key: string, value: int)
    requires CleanKey(key) && Fits(value)
    ensures ApplyLine(c, key + "=" + Decimal(value)) == c.(keybinds := c.keybinds[key := value])
  {
    var line := key + "=" + Decimal(value);
    assert line[..|key|] == key;
    FindIs(line, '=', |key|);
    assert line[|key| + 1..] == Decimal(value);
    NoNewlineInNumbers(value);
    StoiDecimal(value);
  }

  function Only(keybinds: map<string, int>, keys: seq<string>): map<string, int> {
    map k | k in keybinds && k in keys :: keybinds[k]
  }

  lemma OnlyMore(a: map<string, int>, keybinds: map<string, int>, order: seq<string>)
    requires order != [] && order[0] in keybinds
    ensures a[order[0] := keybinds[order[0]]] + Only(keybinds, order[1..]) == a + Only(keybinds, order)
  {
    assert order == [order[0]] + order[1..];
  }

  lemma {:induction false} KeyLinesApply(c: Config, keybinds: map<string, int>, order: seq<string>)
    requires forall k :: k in order ==> k in keybinds && CleanKey(k)
    requires Wide(keybinds)
    ensures Load(c, KeyLines(keybinds, order)) == c.(keybinds := c.keybinds + Only(keybinds, order))
    decreases |order|
  {
    assert Load(c, "") == c;
    hide Load, ApplyLine, Decimal;
    if order == [] {
      assert c.keybinds + Only(keybinds, order) == c.keybinds;
    } else {
      var key, rest := order[0], KeyLines(keybinds, order[1..]);
      var line := key + "=" + Decimal(keybinds[key]);
      NoNewlineInNumbers(keybinds[key]);
      assert KeyLines(keybinds, order) == line + "\n" + rest;
      FirstLine(c, line, rest);
      KeyLineApplies(c, key, keybinds[key]);
      var c' := ApplyLine(c, line);
      KeyLinesApply(c', keybinds, order[1..]);
      OnlyMore(c.keybinds, keybinds, order);
    }
  }

  lemma UsernameLine(c: Config, name: string)
    requires '\n' !in name
    ensures ApplyLine(c, "username=" + name) == c.(username := if name == "" then c.username else name)
  {
    var line := "username=" + name;
    assert line[..8] == "username";
    FindIs(line, '=', 8);
    assert line[9..] == name;
  }

  lemma CleanRoundTrip(c: Config, order: seq<string>)
    requires Enumerates(order, c.keybinds) && Wide(c.keybinds) && Clean(c)
    ensures Load(INITIAL, Save(c, order)) == Config(c.username, DEFAULTS + c.keybinds)
  {
    var lines := KeyLines(c.keybinds, order);
    assert Save(c, order) == ("username=" + c.username) + "\n" + lines;
    assert '\n' !in "username=";
    FirstLine(INITIAL, "username=" + c.username, lines);
    UsernameLine(INITIAL, c.username);
    KeyLinesApply(ApplyLine(INITIAL, "username=" + c.username), c.keybinds, order);
    assert Only(c.keybinds, order) == c.keybinds;
  }

  lemma PartsOf(line: string, i: nat, c: char)
    requires i < |line| && c !in line
    ensures c !in line[..i] && c !in line[i + 1..]
  {
    assert line == line[..i] + line[i..] && line == line[..i + 1] + line[i + 1..];
  }

  lemma StoiFits(s: string)
    ensures Stoi(s).Some? ==> Fits(Stoi(s).value)
  {
    hide Digits, Unsigned, SkipSpaces;
  }

  lemma LineKeepsClean(c: Config, line: string)
    requires Clean(c) && '\n' !in line && Wide(c.keybinds)
    ensures Clean(ApplyLine(c, line)) && Wide(ApplyLine(c, line).keybinds)
    ensures c.keybinds.Keys <= ApplyLine(c, line).keybinds.Keys
  {
    hide Stoi;
    var i := Find(line, '=');
    if i + 1 < |line| {
      PartsOf(line, i, '\n');
      StoiFits(line[i + 1..]);
    }
  }

  lemma {:induction false} LoadKeepsClean(c: Config, text: string)
    requires Clean(c) && Wide(c.keybinds)
    ensures Clean(Load(c, text)) && Wide(Load(c, text).keybinds)
    ensures c.keybinds.Keys <= Load(c, text).keybinds.Keys
    decreases |text|
  {
    hide ApplyLine, Clean, Wide, Stoi;
    if text != "" {
      var i := Find(text, '\n');
      LineKeepsClean(c, text[..i]);
      LoadKeepsClean(ApplyLine(c, text[..i]), if i == |text| then "" else text[i + 1..]);
    }
  }

  lemma InitialIsClean()
    ensures Clean(INITIAL) && Wide(INITIAL.keybinds)
  {
  }

  /** A saved configuration is read back, over the defaults, exactly when its username has no newline
      and its keys have no '=' and no newline and are not "username". */
  lemma RoundTripIff(c: Config, order: seq<string>)
    requires Enumerates(order, c.keybinds) && Wide(c.keybinds)
    ensures Load(INITIAL, Save(c, order)) == Config(c.username, DEFAULTS + c.keybinds) <==> Clean(c)
  {
    if Clean(c) {
      CleanRoundTrip(c, order);
    } else {
      InitialIsClean();
      LoadKeepsClean(INITIAL, Save(c, order));
      assert forall k :: k in c.keybinds ==> k in DEFAULTS + c.keybinds;
    }
  }

  /** Whatever is in the file, the configuration loaded from it survives being saved and loaded again. */
  lemma LoadedSurvives(text: string, order: seq<string>)
    requires Enumerates(order, Load(INITIAL, text).keybinds)
    ensures Load(INITIAL, Save(Load(INITIAL, text), order)) == Load(INITIAL, text)
  {
    var c := Load(INITIAL, text);
    InitialIsClean();
    LoadKeepsClean(INITIAL, text);
    CleanRoundTrip(c, order);
    assert DEFAULTS + c.keybinds == c.keybinds;
  }
}
