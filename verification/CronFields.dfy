/** Schedule fields, commands and the job line (internal/cron/cron.go). Text is a sequence of characters;
    the two length limits count bytes, as the program does. */
module CronFields {
  import opened Common
  import opened Texts
  import opened Splits

  datatype Job = Job(minute: string, hour: string, dom: string, month: string, dow: string, command: string)

  predicate IsDigit(c: char) { '0' <= c <= '9' }

  predicate IsLetter(c: char) { 'A' <= c <= 'Z' || 'a' <= c <= 'z' }

  predicate AllDigits(s: string) { forall i | 0 <= i < |s| :: IsDigit(s[i]) }

  predicate IsName(s: string) { 1 <= |s| <= 9 && forall i | 0 <= i < |s| :: IsLetter(s[i]) }

  // ---- Numbers ----

  function Digits(s: string): (n: int)
    requires AllDigits(s)
    ensures n >= 0
  {
    if s == "" then 0 else 10 * Digits(s[..|s| - 1]) + (s[|s| - 1] - '0') as int
  }

  /** A decimal number with an optional sign, within 64 bits. */
  function Atoi(s: string): Option<int> {
    var body := if s != "" && (s[0] == '+' || s[0] == '-') then s[1..] else s;
    if body == "" || !AllDigits(body) then None
    else
      var n := if s[0] == '-' then -Digits(body) else Digits(body);
      if -0x8000_0000_0000_0000 <= n < 0x8000_0000_0000_0000 then Some(n) else None
  }

  // ---- What a field is ----

  predicate IsValue(s: string) { s != "" && (AllDigits(s) || IsName(s)) }

  predicate IsPoint(s: string) { s == "*" || IsRange(s) || IsValue(s) }

  predicate IsRange(s: string) {
    exists k | 0 <= k < |s| :: s[k] == '-' && IsValue(s[..k]) && IsValue(s[k + 1..])
  }

  predicate IsStep(s: string) { Atoi(s).Some? && Atoi(s).value >= 1 }

  predicate IsItem(s: string) {
    IsPoint(s) || exists k | 0 <= k < |s| :: s[k] == '/' && IsPoint(s[..k]) && IsStep(s[k + 1..])
  }

  /** No `c` in the first k characters. */
  predicate Before(s: string, k: nat, c: char)
    requires k <= |s|
  {
    forall i | 0 <= i < k :: s[i] != c
  }

  /** The first position of a character, or the length. */
  method IndexOf(s: string, c: char) returns (k: nat)
    ensures k <= |s| && Before(s, k, c) && (k < |s| ==> s[k] == c)
  {
    k := 0;
    while k < |s| && s[k] != c
      invariant k <= |s| && Before(s, k, c)
    {
      k := k + 1;
    }
  }

  method CronValue(s: string) returns (ok: bool)
    ensures ok <==> IsValue(s)
  {
    if s == "" { return false; }
    var digits := true;
    var k := 0;
    while k < |s|
      invariant k <= |s| && AllDigits(s[..k]) && digits
    {
      if s[k] < '0' || s[k] > '9' {
        digits := false;
        break;
      }
      k := k + 1;
    }
    assert digits ==> s[..k] == s;
    return digits || IsName(s);
  }

  lemma ValueHas(s: string, c: char)
    requires IsValue(s) && c in s
    ensures IsDigit(c) || IsLetter(c)
  {
  }

  lemma Pieces(s: string, k: nat, c: char)
    requires k < |s| && c in s && c != s[k]
    ensures c in s[..k] || c in s[k + 1..]
  {
    var i :| 0 <= i < |s| && s[i] == c;
    if i < k { assert s[..k][i] == c; } else { assert s[k + 1..][i - k - 1] == c; }
  }

  lemma PointChars(s: string, c: char)
    requires IsPoint(s) && c in s
    ensures IsDigit(c) || IsLetter(c) || c == '*' || c == '-'
  {
    if IsRange(s) {
      var k :| 0 <= k < |s| && s[k] == '-' && IsValue(s[..k]) && IsValue(s[k + 1..]);
      if c != '-' {
        Pieces(s, k, c);
        ValueHas(if c in s[..k] then s[..k] else s[k + 1..], c);
      }
    }
  }

  /** A range is cut at its first dash: a value has none. */
  lemma RangeAt(s: string, k: nat)
    requires k < |s| && s[k] == '-' && Before(s, k, '-')
    ensures IsPoint(s) <==> IsValue(s[..k]) && IsValue(s[k + 1..])
  {
    assert s[k] in s;
    if IsValue(s) { ValueHas(s, '-'); }
    if IsRange(s) {
      var j :| 0 <= j < |s| && s[j] == '-' && IsValue(s[..j]) && IsValue(s[j + 1..]);
      if j > k {
        assert s[..j][k] == '-';
        ValueHas(s[..j], '-');
      }
    }
  }

  /** An item is cut at its first slash: a point has none. */
  lemma StepAt(s: string, k: nat)
    requires k < |s| && s[k] == '/' && Before(s, k, '/')
    ensures IsItem(s) <==> IsPoint(s[..k]) && IsStep(s[k + 1..])
  {
    assert s[k] in s;
    if IsPoint(s) { PointChars(s, '/'); }
    if IsItem(s) {
      var j :| 0 <= j < |s| && s[j] == '/' && IsPoint(s[..j]) && IsStep(s[j + 1..]);
      if j > k {
        assert s[..j][k] == '/';
        PointChars(s[..j], '/');
      }
    }
  }

  lemma {:induction false} ZeroOnlyFromZeros(s: string)
    requires AllDigits(s)
    ensures Digits(s) == 0 <==> forall i | 0 <= i < |s| :: s[i] == '0'
  {
    if s != "" {
      ZeroOnlyFromZeros(s[..|s| - 1]);
    }
  }

  ghost predicate HasPositiveDigit(s: string) { exists i | 0 <= i < |s| :: '1' <= s[i] <= '9' }

  /** A step is a positive number: "0", "00", a minus and nothing at all are refused, and any other number of up
      to 64 bits is taken. */
  lemma StepIsPositive(point: string, step: string)
    requires '/' !in point
    ensures IsItem(point + "/" + step) ==> IsPoint(point) && HasPositiveDigit(step) && step[0] != '-'
    ensures IsPoint(point) && step != "" && AllDigits(step) && HasPositiveDigit(step) && Digits(step) < 0x8000_0000_0000_0000 ==>
              IsItem(point + "/" + step)
  {
    var item := point + "/" + step;
    assert item[|point|] == '/' && item[..|point|] == point && item[|point| + 1..] == step;
    StepAt(item, |point|);
    StepDigits(step);
  }

  lemma StepDigits(step: string)
    ensures IsStep(step) ==> HasPositiveDigit(step) && step[0] != '-'
    ensures step != "" && AllDigits(step) && HasPositiveDigit(step) && Digits(step) < 0x8000_0000_0000_0000 ==> IsStep(step)
  {
    var body := if step != "" && (step[0] == '+' || step[0] == '-') then step[1..] else step;
    if body != "" && AllDigits(body) {
      ZeroOnlyFromZeros(body);
      if Digits(body) != 0 {
        var i :| 0 <= i < |body| && body[i] != '0';
        assert '1' <= step[if body == step then i else i + 1] <= '9';
      }
    }
  }

  method ValidPoint(s: string) returns (ok: bool)
    ensures ok <==> IsPoint(s)
  {
    if s == "*" { return true; }
    var i := IndexOf(s, '-');
    if i < |s| {
      RangeAt(s, i);
      ok := CronValue(s[..i]);
      if ok { ok := CronValue(s[i + 1..]); }
    } else {
      assert s[..i] == s;
      assert !IsRange(s);
      ok := CronValue(s);
    }
  }

  method ValidCronItem(item: string) returns (ok: bool)
    ensures ok <==> IsItem(item)
  {
    if item == "" { return false; }
    var s := item;
    var i := IndexOf(item, '/');
    if i < |item| {
      StepAt(item, i);
      var n := Atoi(item[i + 1..]);
      if n == None || n.value < 1 { return false; }
      s := item[..i];
    } else {
      assert item[..i] == item;
    }
    ok := ValidPoint(s);
  }

  predicate IsField(f: string) {
    f != "" && Bytes(f) <= 120 && forall i | 0 <= i < |Split(f, ',')| :: IsItem(Split(f, ',')[i])
  }

  method ValidField(f: string) returns (ok: bool)
    ensures ok <==> IsField(f)
  {
    if f == "" || Bytes(f) > 120 { return false; }
    var items := Split(f, ',');
    for k := 0 to |items|
      invariant forall i | 0 <= i < k :: IsItem(items[i])
    {
      ok := ValidCronItem(items[k]);
      if !ok { return false; }
    }
    return true;
  }

  // ---- A field is one token ----

  predicate FieldChar(c: char) {
    IsDigit(c) || IsLetter(c) || c == '*' || c == '-' || c == '+' || c == '/' || c == ','
  }

  lemma ItemChars(s: string, c: char)
    requires IsItem(s) && c in s
    ensures FieldChar(c)
  {
    if IsPoint(s) {
      PointChars(s, c);
    } else {
      var k :| 0 <= k < |s| && s[k] == '/' && IsPoint(s[..k]) && IsStep(s[k + 1..]);
      if c != '/' {
        Pieces(s, k, c);
        if c in s[..k] { PointChars(s[..k], c); } else { StepChars(s[k + 1..], c); }
      }
    }
  }

  lemma StepChars(s: string, c: char)
    requires IsStep(s) && c in s
    ensures IsDigit(c) || c == '+'
  {
    if s[0] == '+' || s[0] == '-' {
      assert s == [s[0]] + s[1..];
    }
  }

  /** A valid field has at least one character and none that could end it, end the line or start a comment. */
  lemma FieldIsOneToken(f: string)
    requires IsField(f)
    ensures f != "" && forall i | 0 <= i < |f| :: FieldChar(f[i]) && !IsSpace(f[i]) && f[i] != '#'
  {
    JoinSplit(f, ',');
    forall i | 0 <= i < |f| ensures FieldChar(f[i]) {
      if f[i] != ',' {
        JoinChars(Split(f, ','), ',', f[i]);
        var k :| 0 <= k < |Split(f, ',')| && f[i] in Split(f, ',')[k];
        ItemChars(Split(f, ',')[k], f[i]);
      }
    }
  }

  // ---- Commands and lines ----

  /** Bytes of the text in UTF-8. */
  function Bytes(s: string): nat {
    if s == "" then 0
    else Bytes(s[1..]) + if s[0] < '\U{80}' then 1 else if s[0] < '\U{800}' then 2 else if s[0] < '\U{10000}' then 3 else 4
  }

  predicate IsCommand(s: string) {
    && s != "" && !IsSpace(s[0]) && !IsSpace(s[|s| - 1])
    && '\n' !in s && '\r' !in s && '\0' !in s && Bytes(s) <= 4096
  }

  /** The text without the blanks around it, when that is a command. */
  function CleanCommand(s: string): (r: Option<string>)
    ensures r.Some? ==> TrimmedText(s, r.value) && IsCommand(r.value)
    ensures r.None? ==> exists t :: TrimmedText(s, t) && !IsCommand(t)
  {
    var t := TrimSpace(s);
    if t == "" then None
    else if '\n' in t || '\r' in t || '\0' in t then None
    else if Bytes(t) > 4096 then None
    else Some(t)
  }

  /** A command comes back unchanged; any other text is refused or differs by its blanks only. */
  lemma CommandUnchanged(s: string)
    ensures CleanCommand(s) == Some(s) <==> IsCommand(s)
    ensures CleanCommand(s).Some? <==> forall t :: TrimmedText(s, t) ==> IsCommand(t)
  {
    if IsCommand(s) { TrimSpaceKeeps(s); }
    forall t | TrimmedText(s, t) ensures t == TrimSpace(s) { TrimmedUnique(s, t, TrimSpace(s)); }
    assert TrimmedText(s, TrimSpace(s));
  }

  predicate IsJob(j: Job) {
    && IsField(j.minute) && IsField(j.hour) && IsField(j.dom) && IsField(j.month) && IsField(j.dow)
    && IsCommand(j.command)
  }

  function Line(j: Job): string {
    j.minute + " " + (j.hour + " " + (j.dom + " " + (j.month + " " + (j.dow + " " + j.command))))
  }

  function Fields(j: Job): seq<string> { [j.minute, j.hour, j.dom, j.month, j.dow] }

  datatype Parsed = Parsed(fields: seq<string>, rest: string)

  function FirstSpace(s: string): (k: nat)
    ensures k <= |s| && Before(s, k, ' ') && (k < |s| ==> s[k] == ' ')
  {
    if s == "" || s[0] == ' ' then 0 else 1 + FirstSpace(s[1..])
  }

  function Put(f: string, p: Parsed): Parsed { Parsed([f] + p.fields, p.rest) }

  /** Cut a line at its first `n` spaces, as cron reads it. */
  function Cut(s: string, n: nat): Parsed {
    var k := FirstSpace(s);
    if n == 0 || k == |s| then Parsed([], s)
    else Put(s[..k], Cut(s[k + 1..], n - 1))
  }

  lemma CutField(f: string, rest: string, n: nat)
    requires ' ' !in f && n > 0
    ensures Cut(f + " " + rest, n) == Put(f, Cut(rest, n - 1))
  {
    var s := f + " " + rest;
    assert s[|f|] == ' ';
    assert s[..|f|] == f && s[|f| + 1..] == rest;
  }

  lemma CutLine(j: Job)
    requires ' ' !in j.minute && ' ' !in j.hour && ' ' !in j.dom && ' ' !in j.month && ' ' !in j.dow
    ensures Cut(Line(j), 5) == Put(j.minute, Put(j.hour, Put(j.dom, Put(j.month, Put(j.dow, Parsed([], j.command))))))
  {
    var fromDow := j.dow + " " + j.command;
    var fromMonth := j.month + " " + fromDow;
    var fromDom := j.dom + " " + fromMonth;
    CutField(j.dow, j.command, 1);
    CutField(j.month, fromDow, 2);
    CutField(j.dom, fromMonth, 3);
    CutField(j.hour, fromDom, 4);
    CutField(j.minute, j.hour + " " + fromDom, 5);
  }

  lemma FieldHasNoSpace(f: string)
    requires IsField(f)
    ensures ' ' !in f && '\n' !in f
  {
    FieldIsOneToken(f);
  }

  /** Cutting a job's line at its first five spaces gives back its fields and its command. */
  lemma LineRoundTrip(j: Job)
    requires IsJob(j)
    ensures Cut(Line(j), 5) == Parsed(Fields(j), j.command)
  {
    FieldHasNoSpace(j.minute);
    FieldHasNoSpace(j.hour);
    FieldHasNoSpace(j.dom);
    FieldHasNoSpace(j.month);
    FieldHasNoSpace(j.dow);
    CutLine(j);
  }

  /** A job is one line, and not a comment. */
  lemma LineIsOneLine(j: Job)
    requires IsJob(j)
    ensures '\n' !in Line(j) && Line(j) != "" && Line(j)[0] != '#'
  {
    FieldIsOneToken(j.minute);
    FieldHasNoSpace(j.minute);
    FieldHasNoSpace(j.hour);
    FieldHasNoSpace(j.dom);
    FieldHasNoSpace(j.month);
    FieldHasNoSpace(j.dow);
    assert Line(j)[0] == j.minute[0];
  }
}
