/** Cron expressions: how a `JsonExp` is printed, and which parser a raw expression is handed to. */
module Row {
  import opened Wrappers
  import opened Def
  import CronList

  /** `JsonExp`; a nil list is an empty one. */
  datatype JsonExp = JsonExp(
    second: seq<nat>,
    minute: seq<nat>,
    hour: seq<nat>,
    dom: seq<nat>,
    month: seq<nat>,
    dow: seq<nat>,
    location: string)
  {
    function Lists(): seq<seq<nat>> {
      [second, minute, hour, dom, month, dow]
    }
  }

  // ---------- printing ----------

  function Digit(d: nat): (c: char)
    requires d < 10
    ensures '0' <= c <= '9'
  {
    '0' + d as char
  }

  /** `strconv.FormatUint(n, 10)`. */
  function Decimal(n: nat): (s: string)
    ensures |s| > 0 && forall i :: 0 <= i < |s| ==> '0' <= s[i] <= '9'
  {
    if n < 10 then [Digit(n)] else Decimal(n / 10) + [Digit(n % 10)]
  }

  /** Every part, followed by `sep`. */
  function Ended(parts: seq<string>, sep: char): string {
    if parts == [] then "" else Ended(parts[..|parts| - 1], sep) + parts[|parts| - 1] + [sep]
  }

  function Chop(s: string): string {
    if s == "" then "" else s[..|s| - 1]
  }

  function Decimals(nums: seq<nat>): seq<string> {
    seq(|nums|, i requires 0 <= i < |nums| => Decimal(nums[i]))
  }

  function Field(nums: seq<nat>): string {
    if nums == [] then "*" else Chop(Ended(Decimals(nums), ','))
  }

  function Fields(lists: seq<seq<nat>>): seq<string> {
    seq(|lists|, i requires 0 <= i < |lists| => Field(lists[i]))
  }

  function Prefix(location: string): string {
    if location == "" then "" else "TZ=" + location + " "
  }

  /** What `Format` prints. */
  function Text(e: JsonExp): string {
    Prefix(e.location) + Chop(Ended(Fields(e.Lists()), ' '))
  }

  lemma ChopAppend(a: string, s: string)
    requires s != ""
    ensures Chop(a + s) == a + Chop(s)
  {
  }

  lemma EndedNext(parts: seq<string>, i: nat, sep: char)
    requires i < |parts|
    ensures Ended(parts[..i + 1], sep) == Ended(parts[..i], sep) + parts[i] + [sep]
  {
    assert parts[..i + 1][..i] == parts[..i];
  }

  lemma ChopText(e: JsonExp)
    ensures Text(e) == Chop(Prefix(e.location) + Ended(Fields(e.Lists()), ' '))
    ensures Ended(Fields(e.Lists()), ' ') != ""
  {
    ChopAppend(Prefix(e.location), Ended(Fields(e.Lists()), ' '));
  }

  /** The inner loop of `Format`. */
  method AppendNumbers(buf: string, nums: seq<nat>) returns (out: string)
    ensures out == buf + Ended(Decimals(nums), ',')
  {
    out := buf;
    ghost var parts := Decimals(nums);
    for j := 0 to |nums|
      invariant out == buf + Ended(parts[..j], ',')
    {
      EndedNext(parts, j, ',');
      out := out + Decimal(nums[j]);
      out := out + ",";
    }
    assert parts[..|nums|] == parts;
  }

  /** One round of the outer loop: the field of one list, and a space. */
  method AppendField(buf: string, nums: seq<nat>) returns (out: string)
    ensures out == buf + Field(nums) + " "
  {
    if |nums| == 0 {
      out := buf + "*";
    } else {
      out := AppendNumbers(buf, nums);
      out := out[..|out| - 1];
      assert out == buf + Field(nums);
    }
    out := out + " ";
  }

  method AppendLists(buf: string, lists: seq<seq<nat>>) returns (out: string)
    ensures out == buf + Ended(Fields(lists), ' ')
  {
    out := buf;
    ghost var fields := Fields(lists);
    for i := 0 to |lists|
      invariant out == buf + Ended(fields[..i], ' ')
    {
      EndedNext(fields, i, ' ');
      out := AppendField(out, lists[i]);
    }
    assert fields[..|lists|] == fields;
  }

  /** The first part of `Format`. */
  method AppendLocation(buf: string, location: string) returns (out: string)
    ensures out == buf + Prefix(location)
  {
    out := buf;
    if location != "" {
      out := out + "TZ=";
      out := out + location;
      out := out + " ";
    }
  }

  /** The text of `Format`. */
  method PrintText(e: JsonExp) returns (buf: string)
    ensures buf == Text(e)
  {
    buf := AppendLocation("", e.location);
    buf := AppendLists(buf, e.Lists());
    ChopText(e);
    buf := buf[..|buf| - 1];
  }

  /** `Format`. */
  method Format(e: JsonExp) returns (buf: string)
    ensures buf == Text(e) && ReadsBack(buf, e)
  {
    TextReadsBack(e);
    buf := PrintText(e);
  }

  // ---------- reading back ----------

  lemma {:induction false} DecimalInjective(m: nat, n: nat)
    requires Decimal(m) == Decimal(n)
    ensures m == n
  {
    var s := Decimal(m);
    assert Digit(m % 10) == s[|s| - 1] == Digit(n % 10);
    if m >= 10 {
      assert |Decimal(m / 10)| > 0 && n >= 10;
      assert Decimal(m / 10) == s[..|s| - 1] == Decimal(n / 10);
      DecimalInjective(m / 10, n / 10);
    }
  }

  predicate Closed(a: string, sep: char) {
    a == "" || a[|a| - 1] == sep
  }

  lemma NotLonger(a: string, f: string, b: string, g: string, sep: char)
    requires a + f == b + g && sep !in g && Closed(a, sep)
    ensures |a| <= |b|
  {
    var s := b + g;
    forall j | |b| <= j < |s|
      ensures s[j] != sep
    {
      assert s[j] == g[j - |b|];
    }
    assert a != "" ==> (a + f)[|a| - 1] == sep;
  }

  /** What follows the last separator is determined. */
  lemma Peel(a: string, f: string, b: string, g: string, sep: char)
    requires a + f == b + g && sep !in f && sep !in g && Closed(a, sep) && Closed(b, sep)
    ensures a == b && f == g
  {
    NotLonger(a, f, b, g, sep);
    NotLonger(b, g, a, f, sep);
    assert a == (a + f)[..|a|] && b == (b + g)[..|a|];
    assert f == (a + f)[|a|..] && g == (b + g)[|a|..];
  }

  predicate Free(parts: seq<string>, sep: char) {
    forall i :: 0 <= i < |parts| ==> sep !in parts[i]
  }

  lemma SameInit(s: string, t: string, c: char)
    requires s + [c] == t + [c]
    ensures s == t
  {
    assert s == (s + [c])[..|s|] && t == (t + [c])[..|t|];
  }

  /** Equally many closed parts behind a closed beginning are determined, and so is the beginning. */
  lemma {:induction false} EndedInjective(a: string, ps: seq<string>, b: string, qs: seq<string>, sep: char)
    requires a + Ended(ps, sep) == b + Ended(qs, sep) && Closed(a, sep) && Closed(b, sep)
    requires Free(ps, sep) && Free(qs, sep) && |ps| == |qs|
    ensures a == b && ps == qs
    decreases |ps|
  {
    if ps != [] {
      var n := |ps| - 1;
      var a', b' := a + Ended(ps[..n], sep), b + Ended(qs[..n], sep);
      assert a' + ps[n] + [sep] == a + Ended(ps, sep);
      assert b' + qs[n] + [sep] == b + Ended(qs, sep);
      SameInit(a' + ps[n], b' + qs[n], sep);
      Peel(a', ps[n], b', qs[n], sep);
      EndedInjective(a, ps[..n], b, qs[..n], sep);
      assert ps == ps[..n] + [ps[n]] && qs == qs[..n] + [qs[n]];
    } else {
      assert a == a + Ended(ps, sep) && b == b + Ended(qs, sep);
    }
  }

  /** The characters of a field: digits and commas, or a star. */
  lemma FieldChars(nums: seq<nat>)
    ensures Field(nums) != ""
    ensures forall c :: c in Field(nums) ==> '0' <= c <= '9' || c == ',' || c == '*'
    ensures Field(nums)[0] == '*' <==> nums == []
    ensures Field(nums)[0] != ','
  {
    if nums != [] {
      EndedChars(Decimals(nums));
      var s := Ended(Decimals(nums), ',');
      forall c | c in Field(nums)
        ensures c in s
      {
      }
    }
  }

  lemma {:induction false} EndedChars(ps: seq<string>)
    requires ps != []
    requires forall i :: 0 <= i < |ps| ==> |ps[i]| > 0 && forall j :: 0 <= j < |ps[i]| ==> '0' <= ps[i][j] <= '9'
    ensures |Ended(ps, ',')| > 1 && '0' <= Ended(ps, ',')[0] <= '9'
    ensures forall c :: c in Ended(ps, ',') ==> '0' <= c <= '9' || c == ','
  {
    var n := |ps| - 1;
    if n > 0 {
      EndedChars(ps[..n]);
    } else {
      assert Ended(ps, ',') == ps[0] + [','];
    }
  }

  lemma FieldInjective(a: seq<nat>, b: seq<nat>)
    requires Field(a) == Field(b)
    ensures a == b
  {
    FieldChars(a);
    FieldChars(b);
    if a != [] {
      EndedChars(Decimals(a));
      EndedChars(Decimals(b));
      ChopInjective(Ended(Decimals(a), ','), Ended(Decimals(b), ','), ',');
      SameCount(Decimals(a), Decimals(b), ',');
      EndedInjective("", Decimals(a), "", Decimals(b), ',');
      forall i | 0 <= i < |a|
        ensures a[i] == b[i]
      {
        assert Decimals(a)[i] == Decimals(b)[i];
        DecimalInjective(a[i], b[i]);
      }
    }
  }

  lemma ChopInjective(s: string, t: string, sep: char)
    requires s != "" && t != "" && s[|s| - 1] == t[|t| - 1] == sep && Chop(s) == Chop(t)
    ensures s == t
  {
    assert s == Chop(s) + [sep] && t == Chop(t) + [sep];
  }

  /** Equal texts have equally many closed parts. */
  lemma {:induction false} SameCount(ps: seq<string>, qs: seq<string>, sep: char)
    requires Ended(ps, sep) == Ended(qs, sep) && Free(ps, sep) && Free(qs, sep)
    ensures |ps| == |qs|
    decreases |ps|
  {
    if ps != [] && qs != [] {
      var m, n := |ps| - 1, |qs| - 1;
      var a, b := Ended(ps[..m], sep), Ended(qs[..n], sep);
      assert a + ps[m] == Chop(Ended(ps, sep)) == Chop(Ended(qs, sep)) == b + qs[n];
      Peel(a, ps[m], b, qs[n], sep);
      SameCount(ps[..m], qs[..n], sep);
    }
  }

  /** What `Format` prints determines the expression; no location, however odd, is an exception. */
  lemma TextInjective(d: JsonExp, e: JsonExp)
    requires Text(d) == Text(e)
    ensures d == e
  {
    var ds, es := Fields(d.Lists()), Fields(e.Lists());
    FieldsFree(d);
    FieldsFree(e);
    ChopText(d);
    ChopText(e);
    ChopInjective(Prefix(d.location) + Ended(ds, ' '), Prefix(e.location) + Ended(es, ' '), ' ');
    EndedInjective(Prefix(d.location), ds, Prefix(e.location), es, ' ');
    PrefixInjective(d.location, e.location);
    forall i | 0 <= i < 6
      ensures d.Lists()[i] == e.Lists()[i]
    {
      assert ds[i] == es[i];
      FieldInjective(d.Lists()[i], e.Lists()[i]);
    }
    assert d.Lists()[0] == e.Lists()[0] && d.Lists()[1] == e.Lists()[1] && d.Lists()[2] == e.Lists()[2];
    assert d.Lists()[3] == e.Lists()[3] && d.Lists()[4] == e.Lists()[4] && d.Lists()[5] == e.Lists()[5];
  }

  lemma PrefixInjective(a: string, b: string)
    requires Prefix(a) == Prefix(b)
    ensures a == b
  {
    if a != "" && b != "" {
      assert a == Prefix(a)[3..|Prefix(a)| - 1] && b == Prefix(b)[3..|Prefix(b)| - 1];
    }
  }

  lemma FieldsFree(e: JsonExp)
    ensures Free(Fields(e.Lists()), ' ')
  {
    forall i | 0 <= i < 6
      ensures ' ' !in Fields(e.Lists())[i]
    {
      FieldChars(e.Lists()[i]);
    }
  }

  // ---------- which parser ----------

  /** `unicode.IsSpace`. */
  predicate IsSpace(c: char) {
    || '\t' <= c <= '\r' || c == ' ' || c == '\U{85}' || c == '\U{A0}' || c == '\U{1680}' || '\U{2000}' <= c <= '\U{200A}'
    || c == '\U{2028}' || c == '\U{2029}' || c == '\U{202F}' || c == '\U{205F}' || c == '\U{3000}'
  }

  /** What `bufio.ScanWords` delivers: the longest runs without a space. */
  function Words(s: string): (ws: seq<string>)
    ensures s != "" && !IsSpace(s[|s| - 1]) ==> ws != []
  {
    if s == "" then []
    else
      var n := |s| - 1;
      var ws := Words(s[..n]);
      if IsSpace(s[n]) then ws else Grown(ws, s[n], AtGap(s[..n]))
  }

  /** The words with one more character, which begins a new word after a gap. */
  function Grown(ws: seq<string>, c: char, gap: bool): seq<string>
    requires !gap ==> ws != []
  {
    if gap then ws + [[c]] else ws[..|ws| - 1] + [ws[|ws| - 1] + [c]]
  }

  predicate AtGap(s: string) {
    s == "" || IsSpace(s[|s| - 1])
  }

  lemma GrownBehind(ws: seq<string>, vs: seq<string>, c: char, gap: bool)
    requires !gap ==> vs != []
    ensures Grown(ws + vs, c, gap) == ws + Grown(vs, c, gap)
  {
    if !gap {
      var n := |ws + vs| - 1;
      assert (ws + vs)[..n] == ws + vs[..|vs| - 1];
    }
  }

  predicate HasPrefix(s: string, prefix: string) {
    prefix <= s
  }

  predicate IsZone(word: string) {
    HasPrefix(word, "TZ=") || HasPrefix(word, "CRON_TZ=")
  }

  /** How many words do not override the location. */
  function Count(words: seq<string>): nat {
    if words == [] then 0 else Count(words[..|words| - 1]) + if IsZone(words[|words| - 1]) then 0 else 1
  }

  datatype RawExpression = Json(e: JsonExp) | Plain(s: string) | Unknown

  /** The parser that is called, and the text it is given: the six-field parser, or the standard one. */
  datatype Request = SixFields(text: string) | Standard(text: string)

  /** `ParseRawExpression` up to the parsers: the request, and the text that becomes the schedule's hash. */
  method ParseRawExpression(raw: RawExpression) returns (r: Option<(Request, string)>)
    ensures r == Routed(raw)
    // the text itself becomes the hash, and a printed expression reads back as what it was printed from
    ensures raw.Plain? ==> r.Some? && r.value.1 == raw.s && (r.value.0 == SixFields(raw.s) || r.value.0 == Standard(raw.s))
    ensures raw.Json? ==> r.Some? && r.value.0 == SixFields(r.value.1) && ReadsBack(r.value.1, raw.e)
    ensures raw.Unknown? ==> r.None?
  {
    match raw
    case Json(e) =>
      var text := Format(e);
      return Some((SixFields(text), text));
    case Plain(s) =>
      if |s| > 0 && '@' !in s {
        var words, count := Words(s), 0;
        for i := 0 to |words|
          invariant count == Count(words[..i])
        {
          assert words[..i + 1][..i] == words[..i];
          if !HasPrefix(words[i], "TZ=") && !HasPrefix(words[i], "CRON_TZ=") {
            count := count + 1;
          }
        }
        assert words[..|words|] == words;
        if count == 6 {
          return Some((SixFields(s), s));
        }
      }
      return Some((Standard(s), s));
    case Unknown =>
      return None;
  }

  function Routed(raw: RawExpression): Option<(Request, string)> {
    match raw
    case Json(e) => Some((SixFields(Text(e)), Text(e)))
    case Plain(s) => Some((if s != "" && '@' !in s && Count(Words(s)) == 6 then SixFields(s) else Standard(s), s))
    case Unknown => None
  }

  lemma WordsSnoc(s: string, c: char)
    ensures Words(s + [c]) == if IsSpace(c) then Words(s) else Grown(Words(s), c, AtGap(s))
  {
    assert (s + [c])[..|s|] == s;
  }

  /** The last character of what is appended comes last. */
  lemma AppendedLast(s: string, f: string)
    ensures f == "" ==> s + f == s
    ensures f != "" ==> s + f == s + f[..|f| - 1] + [f[|f| - 1]] && f == f[..|f| - 1] + [f[|f| - 1]]
  {
  }

  lemma OneMoreChar(a: string, b: string, c: char)
    requires Words(a + " " + b) == Words(a) + Words(b)
    ensures Words(a + " " + b + [c]) == Words(a) + Words(b + [c])
  {
    var s := a + " " + b;
    assert AtGap(s) == AtGap(b);
    WordsSnoc(s, c);
    WordsSnoc(b, c);
    if !IsSpace(c) {
      GrownBehind(Words(a), Words(b), c, AtGap(b));
    }
  }

  /** A space separates words. */
  lemma {:induction false} WordsAppend(a: string, b: string)
    ensures Words(a + " " + b) == Words(a) + Words(b)
    decreases |b|
  {
    AppendedLast(a + " ", b);
    if b == "" {
      WordsSnoc(a, ' ');
    } else {
      WordsAppend(a, b[..|b| - 1]);
      OneMoreChar(a, b[..|b| - 1], b[|b| - 1]);
    }
  }

  lemma {:induction false} OneWord(p: string)
    requires p != "" && forall i :: 0 <= i < |p| ==> !IsSpace(p[i])
    ensures Words(p) == [p]
  {
    var n := |p| - 1;
    var init := p[..n];
    assert p == init + [p[n]];
    WordsSnoc(init, p[n]);
    if n > 0 {
      OneWord(init);
      assert !AtGap(init) by {
        assert init[|init| - 1] == p[n - 1];
      }
      assert Grown([init], p[n], false) == [init + [p[n]]];
    } else {
      assert Words(init) == [];
    }
  }

  lemma {:induction false} CountAppend(ws: seq<string>, vs: seq<string>)
    ensures Count(ws + vs) == Count(ws) + Count(vs)
    decreases |vs|
  {
    if vs == [] {
      assert ws + vs == ws;
    } else {
      var n := |vs| - 1;
      CountAppend(ws, vs[..n]);
      assert (ws + vs)[..|ws + vs| - 1] == ws + vs[..n];
    }
  }

  lemma CountOne(word: string)
    ensures Count([word]) == if IsZone(word) then 0 else 1
  {
    var ws := [word];
    assert ws[..0] == [];
  }

  lemma FieldIsOneWord(nums: seq<nat>)
    ensures Words(Field(nums)) == [Field(nums)] && !IsZone(Field(nums)) && '@' !in Field(nums)
    ensures Count(Words(Field(nums))) == 1
  {
    FieldChars(nums);
    var f := Field(nums);
    forall i | 0 <= i < |f|
      ensures !IsSpace(f[i])
    {
      assert f[i] in f;
    }
    OneWord(f);
    assert "TZ="[0] == 'T' && "CRON_TZ="[0] == 'C';
    assert f[0] in f;
    CountOne(f);
  }

  /** The fields of an expression are as many words, and none of them overrides the location. */
  lemma {:induction false} FieldsAreWords(lists: seq<seq<nat>>)
    requires lists != []
    ensures Count(Words(Chop(Ended(Fields(lists), ' ')))) == |lists|
    ensures '@' !in Chop(Ended(Fields(lists), ' '))
  {
    var n, fs := |lists| - 1, Fields(lists);
    FieldIsOneWord(lists[n]);
    assert fs[..n] == Fields(lists[..n]);
    if n == 0 {
      assert Chop(Ended(fs, ' ')) == fs[0];
    } else {
      FieldsAreWords(lists[..n]);
      var line := Ended(fs[..n], ' ');
      EndedNext(fs[..n], n - 1, ' ');
      assert fs[..n][..n] == fs[..n];
      assert line == Chop(line) + " ";
      assert Chop(Ended(fs, ' ')) == Chop(line) + " " + fs[n];
      WordsAppend(Chop(line), fs[n]);
      CountAppend(Words(Chop(line)), Words(fs[n]));
    }
  }

  // ---------- reading the numbers back ----------

  /** The value of a row of digits, from the left. */
  function ReadDigits(s: string): Option<nat> {
    if s == "" then Some(0)
    else
      var c := s[|s| - 1];
      match ReadDigits(s[..|s| - 1])
      case None => None
      case Some(v) => if '0' <= c <= '9' then Some(10 * v + (c as int - '0' as int)) else None
  }

  /** A number has at least one digit. */
  function ReadNumber(s: string): Option<nat> {
    if s == "" then None else ReadDigits(s)
  }

  /** The stretches between the commas. */
  function Split(s: string): (parts: seq<string>)
    ensures parts != []
  {
    if s == "" then [""]
    else
      var c, parts := s[|s| - 1], Split(s[..|s| - 1]);
      if c == ',' then parts + [""] else Glued(parts, [c])
  }

  /** The parts with `f` at the end of the last one. */
  function Glued(parts: seq<string>, f: string): (r: seq<string>)
    requires parts != []
    ensures |r| == |parts|
  {
    parts[..|parts| - 1] + [parts[|parts| - 1] + f]
  }

  function ReadAll(parts: seq<string>): Option<seq<nat>> {
    if parts == [] then Some([])
    else
      match (ReadAll(parts[..|parts| - 1]), ReadNumber(parts[|parts| - 1]))
      case (Some(nums), Some(n)) => Some(nums + [n])
      case _ => None
  }

  /** A star stands for the empty list. */
  function ReadField(word: string): Option<seq<nat>> {
    if word == "*" then Some([]) else ReadAll(Split(word))
  }

  /** The words from the `n`-th on read as the six lists, in cron's order. */
  predicate SixRead(words: seq<string>, n: nat, e: JsonExp) {
    && |words| == n + 6
    && ReadField(words[n]) == Some(e.second)
    && ReadField(words[n + 1]) == Some(e.minute)
    && ReadField(words[n + 2]) == Some(e.hour)
    && ReadField(words[n + 3]) == Some(e.dom)
    && ReadField(words[n + 4]) == Some(e.month)
    && ReadField(words[n + 5]) == Some(e.dow)
  }

  /** The last six words are those of the six lists, and the words before them are those of the location. */
  predicate ReadsBack(text: string, e: JsonExp) {
    var words, n := Words(text), |Words(text)| - 6;
    n >= 0 && SixRead(words, n, e) && words[..n] == if e.location == "" then [] else Words("TZ=" + e.location)
  }

  lemma {:induction false} ReadsDecimal(n: nat)
    ensures ReadDigits(Decimal(n)) == Some(n)
  {
    var s := Decimal(n);
    if n < 10 {
      assert s[..0] == "";
    } else {
      ReadsDecimal(n / 10);
      assert s[..|s| - 1] == Decimal(n / 10);
    }
  }

  lemma SplitSnoc(s: string, c: char)
    ensures Split(s + [c]) == if c == ',' then Split(s) + [""] else Glued(Split(s), [c])
  {
    assert (s + [c])[..|s|] == s;
  }

  lemma GluedTwice(parts: seq<string>, f: string, g: string)
    requires parts != []
    ensures Glued(Glued(parts, f), g) == Glued(parts, f + g)
  {
    assert (parts[|parts| - 1] + f) + g == parts[|parts| - 1] + (f + g);
  }

  lemma GluedNothing(parts: seq<string>)
    requires parts != []
    ensures Glued(parts, "") == parts
  {
    var last := |parts| - 1;
    assert parts[last] + "" == parts[last];
    assert parts == parts[..last] + [parts[last]];
  }

  /** What has no comma goes to the last part. */
  lemma {:induction false} SplitAppend(s: string, f: string)
    requires ',' !in f
    ensures Split(s + f) == Glued(Split(s), f)
    decreases |f|
  {
    AppendedLast(s, f);
    if f == "" {
      GluedNothing(Split(s));
    } else {
      var n := |f| - 1;
      SplitAppend(s, f[..n]);
      SplitSnoc(s + f[..n], f[n]);
      GluedTwice(Split(s), f[..n], [f[n]]);
    }
  }

  lemma GluedToEmpty(parts: seq<string>, f: string)
    ensures Glued(parts + [""], f) == parts + [f]
  {
    assert "" + f == f;
    assert (parts + [""])[..|parts|] == parts;
  }

  lemma SplitNext(front: string, parts: seq<string>, p: string)
    requires Split(front) == parts + [""] && ',' !in p
    ensures Split(front + p) == parts + [p]
    ensures Split(front + p + [',']) == parts + [p] + [""]
  {
    SplitAppend(front, p);
    GluedToEmpty(parts, p);
    SplitSnoc(front + p, ',');
  }

  lemma {:induction false} SplitEnded(ps: seq<string>)
    requires Free(ps, ',')
    ensures Split(Ended(ps, ',')) == ps + [""]
    ensures ps != [] ==> Split(Chop(Ended(ps, ','))) == ps
  {
    if ps != [] {
      var n := |ps| - 1;
      SplitEnded(ps[..n]);
      SplitNext(Ended(ps[..n], ','), ps[..n], ps[n]);
      assert ps[..n] + [ps[n]] == ps;
    }
  }

  lemma {:induction false} ReadsDecimals(nums: seq<nat>)
    ensures ReadAll(Decimals(nums)) == Some(nums)
  {
    if nums != [] {
      var n := |nums| - 1;
      ReadsDecimals(nums[..n]);
      ReadsDecimal(nums[n]);
      var parts := Decimals(nums);
      assert parts[..|parts| - 1] == Decimals(nums[..n]);
      assert nums == nums[..n] + [nums[n]];
    }
  }

  lemma ReadsField(nums: seq<nat>)
    ensures ReadField(Field(nums)) == Some(nums)
  {
    if nums != [] {
      FieldChars(nums);
      assert Field(nums) != "*";
      SplitEnded(Decimals(nums));
      ReadsDecimals(nums);
    }
  }

  lemma FieldReadAt(front: seq<string>, lists: seq<seq<nat>>, i: nat)
    requires i < |lists|
    ensures ReadField((front + Fields(lists))[|front| + i]) == Some(lists[i])
  {
    ReadsField(lists[i]);
  }

  lemma FieldsRead(front: seq<string>, e: JsonExp)
    ensures SixRead(front + Fields(e.Lists()), |front|, e)
    ensures (front + Fields(e.Lists()))[..|front|] == front
  {
    FieldReadAt(front, e.Lists(), 0);
    FieldReadAt(front, e.Lists(), 1);
    FieldReadAt(front, e.Lists(), 2);
    FieldReadAt(front, e.Lists(), 3);
    FieldReadAt(front, e.Lists(), 4);
    FieldReadAt(front, e.Lists(), 5);
  }

  /** The words of the printed fields are the fields. */
  lemma {:induction false} LineWords(lists: seq<seq<nat>>)
    requires lists != []
    ensures Words(Chop(Ended(Fields(lists), ' '))) == Fields(lists)
  {
    var n, fs := |lists| - 1, Fields(lists);
    FieldIsOneWord(lists[n]);
    assert fs[..n] == Fields(lists[..n]);
    assert fs == fs[..n] + [fs[n]];
    if n == 0 {
      assert Chop(Ended(fs, ' ')) == fs[0];
    } else {
      LineWords(lists[..n]);
      var line := Ended(fs[..n], ' ');
      EndedNext(fs[..n], n - 1, ' ');
      assert fs[..n][..n] == fs[..n];
      assert line == Chop(line) + " ";
      assert Chop(Ended(fs, ' ')) == Chop(line) + " " + fs[n];
      WordsAppend(Chop(line), fs[n]);
    }
  }

  lemma TextWords(e: JsonExp)
    ensures Words(Text(e)) == (if e.location == "" then [] else Words("TZ=" + e.location)) + Fields(e.Lists())
  {
    var line := Chop(Ended(Fields(e.Lists()), ' '));
    LineWords(e.Lists());
    if e.location == "" {
      assert Text(e) == line;
    } else {
      assert Text(e) == "TZ=" + e.location + " " + line;
      WordsAppend("TZ=" + e.location, line);
    }
  }

  /** What is printed reads back as the expression it was printed from. */
  lemma TextReadsBack(e: JsonExp)
    ensures ReadsBack(Text(e), e)
  {
    TextWords(e);
    FieldsRead(if e.location == "" then [] else Words("TZ=" + e.location), e);
  }

  /**
   Parsing the printed text makes the same request as parsing the expression, and so yields the same
   schedule and the same hash, exactly if the location has no '@' and adds no word that would count as a field.
   */
  lemma FormatAgrees(e: JsonExp)
    ensures Routed(Plain(Text(e))) == Routed(Json(e)) <==>
            e.location == "" || ('@' !in e.location && Count(Words("TZ=" + e.location)) == 0)
  {
    var line := Chop(Ended(Fields(e.Lists()), ' '));
    FieldsAreWords(e.Lists());
    SameRequest(e);
    if e.location == "" {
      assert Text(e) == line;
      assert Count(Words("")) == 0;
    } else {
      assert Text(e) == "TZ=" + e.location + " " + line;
      WordsOfBoth("TZ=" + e.location, line);
    }
  }

  lemma SameRequest(e: JsonExp)
    ensures Routed(Plain(Text(e))) == Routed(Json(e)) <==>
            Text(e) != "" && '@' !in Text(e) && Count(Words(Text(e))) == 6
  {
  }

  lemma WordsOfBoth(zone: string, line: string)
    ensures Count(Words(zone + " " + line)) == Count(Words(zone)) + Count(Words(line))
    ensures '@' in zone + " " + line <==> '@' in zone || '@' in line
  {
    WordsAppend(zone, line);
    CountAppend(Words(zone), Words(line));
  }

  /** In particular for every location without white space and '@'. */
  lemma OrdinaryLocationAgrees(e: JsonExp)
    requires '@' !in e.location && forall i :: 0 <= i < |e.location| ==> !IsSpace(e.location[i])
    ensures Routed(Plain(Text(e))) == Routed(Json(e))
  {
    if e.location != "" {
      var zone := "TZ=" + e.location;
      OneWord(zone);
      assert zone[..3] == "TZ=" && IsZone(zone);
      CountOne(zone);
    }
    FormatAgrees(e);
  }

  // ---------- rows as schedules ----------

  /** `Row`: its parameter, the text of its expression, and the parsed expression. */
  function RowSchedule(param: TaskUpdateParam, hash: string, next: Time -> Time): CronList.Schedule {
    CronList.Schedule(hash, (prev: Time) => param.Update(NO_PARAM.(scheduledAt := Some(next(prev)))))
  }

  /**
   A row's key can be read at every instant, and is then always the same, exactly if the row's meta
   data is not a nil map, which `Entry.next` cannot write to.
   */
  lemma RowIsKeyStable(param: TaskUpdateParam, hash: string, next: Time -> Time)
    ensures CronList.KeyStable(RowSchedule(param, hash, next)) <==> param.meta != Some(Nil)
    ensures forall t :: CronList.NextTime(RowSchedule(param, hash, next), t) == next(t)
    ensures forall t :: RowSchedule(param, hash, next).next(t) == param.(scheduledAt := Some(next(t)))
    ensures RowSchedule(param, hash, next).hash == hash
  {
    var s := RowSchedule(param, hash, next);
    forall t ensures s.next(t) == param.(scheduledAt := Some(next(t))) {
    }
    if param.meta == Some(Nil) {
      assert s.next(0).meta == Some(Nil);
    }
  }

  /** Two rows that differ in their printed expression never share a key, whatever else they have in common. */
  lemma ExpressionsKeepKeysApart(d: JsonExp, e: JsonExp, p: TaskUpdateParam, q: TaskUpdateParam, f: Time -> Time, g: Time -> Time)
    requires d != e
    ensures CronList.KeyFor(RowSchedule(p, Text(d), f)) != CronList.KeyFor(RowSchedule(q, Text(e), g))
  {
    if Text(d) == Text(e) {
      TextInjective(d, e);
    }
    CronList.KeyHoldsHash(RowSchedule(p, Text(d), f));
    CronList.KeyHoldsHash(RowSchedule(q, Text(e), g));
  }
}
