/** How the lines of a configuration file are written, and what the program reads of them. */
module ConfigLines {
  import opened CText
  import opened Conf
  import opened ConfigRows
  import opened ConfigFile

  predicate Blanks(s: string) {
    forall i :: 0 <= i < |s| ==> s[i] in " \t\r\n"
  }

  // texts that stand in a line as they are
  predicate PlainText(s: string) {
    s != "" && !Blank(s[0]) && !Blank(s[|s| - 1]) && '#' !in s && '\n' !in s && '\0' !in s
  }

  // a key and a value with blanks around them, and a remark behind
  datatype Assignment = Assignment(front: string, key: string, before: string, after: string, value: string,
                                   back: string, remark: string)

  function Written(e: Assignment): string {
    e.front + (e.key + e.before + "=" + e.after + e.value) + (e.back + e.remark)
  }

  predicate Plain(e: Assignment) {
    && Blanks(e.front) && Blanks(e.before) && Blanks(e.after) && Blanks(e.back)
    && PlainText(e.key) && e.key[0] != '[' && '=' !in e.key
    && (e.value == "" || PlainText(e.value))
    && (e.remark == "" || e.remark[0] == '#')
  }

  // where the value begins in the line buffer, its blanks included
  function Column(e: Assignment): nat {
    |e.key| + |e.before| + 1
  }

  // what the trims leave of the line
  function Kept(e: Assignment): string {
    e.key + e.before + "=" + (if e.value == "" then "" else e.after + e.value)
  }

  lemma NoRemark(e: Assignment)
    requires Plain(e)
    ensures '#' !in e.key + e.before + "=" + e.after + e.value + e.back
  {
  }

  lemma {:induction false} BlanksTrimmed(s: string, b: string)
    requires Blanks(b)
    ensures RTrim(s + b) == RTrim(s)
    decreases |b|
  {
    if b == "" {
      assert s + b == s;
    } else {
      assert (s + b)[..|s + b| - 1] == s + b[..|b| - 1];
      BlanksTrimmed(s, b[..|b| - 1]);
    }
  }

  lemma WrittenCut(e: Assignment)
    requires Plain(e)
    ensures LTrim(Written(e)) == e.key + e.before + "=" + e.after + e.value + e.back + e.remark
    ensures Cut(LTrim(Written(e))) == e.key + e.before + "=" + e.after + e.value + e.back
    ensures TrimsInside(Written(e))
  {
    var s, t := Written(e), e.key + e.before + "=" + e.after + e.value + e.back;
    assert s == e.front + (t + e.remark);
    assert s[|e.front|..] == t + e.remark;
    LTrimIs(s, |e.front|);
    NoRemark(e);
    IndexOfIs(t + e.remark, '#', 0, |t|);
    assert (t + e.remark)[..|t|] == t;
    TrimsInsideIff(s);
  }

  lemma WrittenKept(e: Assignment)
    requires Plain(e)
    ensures Trimmed(Written(e)) == Kept(e)
  {
    WrittenCut(e);
    var head := e.key + e.before + "=";
    if e.value == "" {
      assert head + e.after + e.value + e.back == head + (e.after + e.back);
      BlanksTrimmed(head, e.after + e.back);
    } else {
      BlanksTrimmed(head + e.after + e.value, e.back);
      assert head + e.after + e.value == head + (e.after + e.value);
    }
    RTrimIs(Kept(e), |Kept(e)|);
  }

  // the key stands without the blanks behind it, and the value without those in front of it
  lemma KeptContent(e: Assignment)
    requires Plain(e)
    ensures ContentOf(Kept(e)) == Pair(e.key, e.value, Column(e))
  {
    var u, field := Kept(e), e.key + e.before;
    IndexOfIs(u, '=', 0, |field|);
    assert u[..|field|] == field;
    NoRemark(e);
    KeyIsInside(field);
    BlanksTrimmed(e.key, e.before);
    RTrimIs(e.key, |e.key|);
    var rest := u[|field| + 1..];
    if e.value == "" {
      assert rest == "";
    } else {
      assert rest == e.after + e.value && rest[|e.after|..] == e.value;
      LTrimIs(rest, |e.after|);
    }
  }

  // so the program reads of the line its key and value, whatever blanks and remark are written around them
  lemma AssignmentRead(e: Assignment)
    requires Plain(e)
    ensures RowOf(Written(e)) == Row(Pair(e.key, e.value, Column(e)), false)
  {
    WrittenCut(e);
    WrittenKept(e);
    KeptContent(e);
    assert Written(e)[0] != '#';
  }

  // a header with blanks around it
  lemma HeaderRead(front: string, section: string, back: string, remark: string)
    requires Blanks(front) && Blanks(back) && PlainText(section) && section[0] == '['
    requires remark == "" || remark[0] == '#'
    ensures RowOf(front + section + back + remark) == Row(Header(section), false)
  {
    var s, t := front + section + back + remark, section + back;
    assert s == front + (t + remark) && s[|front|..] == t + remark;
    LTrimIs(s, |front|);
    assert '#' !in t;
    IndexOfIs(t + remark, '#', 0, |t|);
    assert (t + remark)[..|t|] == t;
    TrimsInsideIff(s);
    BlanksTrimmed(section, back);
    RTrimIs(section, |section|);
  }

  // in every file: if the last line for a field in front of a line that stops the program is written in this way,
  // the field is what the line says
  lemma FieldRead(file: string, field: Field, k: nat, e: Assignment)
    requires var h, rows := Program(), Rows(file);
             LastAt(h, rows, FirstBad(h, rows, |rows|), field) == k && k < |rows|
    requires Plain(e) && Lines(file)[k] == Written(e)
    ensures var settings := FedAll(Program(), Initial(), Rows(file)).settings;
            field in settings && settings[field] == SettingOf(field, e.value)
  {
    FileSettings(file, field);
    AssignmentRead(e);
  }
}
