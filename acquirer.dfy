/**
  The acquirer (`import_data_vf.py`): reads the period list, resolves each
  period to a download URL and a local file, downloads what is missing and
  appends one audit-log line per attempt, between a start line and an end
  line.
*/
module Acquirer {
  import opened Wrappers
  import opened Text
  import opened Host
  import opened Seqs

  datatype Config = Config(base: string, periods: seq<string>)

  /** The two `ValueError`s `leer_config` raises. */
  datatype ConfigError = MissingBase | NoPeriods

  // ---------------------------------------------------------------------
  // Reading the period list
  // ---------------------------------------------------------------------

  /**
    A stripped line accepted by `line.upper().startswith("BASE=")`: its first
    five characters are ones whose upper-case form is B, A, S, E and `=`
    (U+017F, the long s, upper-cases to S).
  */
  predicate IsBaseLine(line: string) {
    |line| >= 5
    && (line[0] == 'b' || line[0] == 'B')
    && (line[1] == 'a' || line[1] == 'A')
    && (line[2] == 's' || line[2] == 'S' || line[2] == '\U{017F}')
    && (line[3] == 'e' || line[3] == 'E')
    && line[4] == '='
  }

  /** `line.split("=", 1)[1].strip().rstrip("/")` on a BASE line. */
  function BaseValue(line: string): (b: string)
    requires IsBaseLine(line)
    ensures |b| > 0 ==> b[|b| - 1] != '/'
  {
    TrimEndChar(Strip(line[5..]), '/')
  }

  /** A line `leer_config` passes over: blank once stripped, or a comment. */
  predicate IsSkipped(line: string) {
    var t := Strip(line);
    t == [] || t[0] == '#'
  }

  /** `[p.strip() for p in parts if p.strip()]` */
  function Tokens(parts: seq<string>): (ts: seq<string>)
    ensures |ts| <= |parts|
    ensures forall t :: t in ts ==> t != [] && Strip(t) == t
  {
    if parts == [] then []
    else
      var t := Strip(parts[0]);
      StripIdempotent(parts[0]);
      if t == [] then Tokens(parts[1..]) else [t] + Tokens(parts[1..])
  }

  /** A character found in no part is found in no token. */
  lemma {:induction false} TokensAvoid(parts: seq<string>, c: char)
    requires forall p :: p in parts ==> c !in p
    ensures forall t :: t in Tokens(parts) ==> c !in t
  {
    if parts != [] {
      assert parts[0] in parts;
      StripWithin(parts[0]);
      TokensAvoid(parts[1..], c);
    }
  }

  /** The period tokens of one line: split on `;`, trimmed, empty ones dropped. */
  function LineTokens(line: string): (ts: seq<string>)
    ensures forall t :: t in ts ==> t != [] && Strip(t) == t && ';' !in t
  {
    TokensAvoid(Split(line, ';'), ';');
    Tokens(Split(line, ';'))
  }

  /** Every character of a stripped string comes from the string. */
  lemma StripWithin(s: string)
    ensures forall c :: c in Strip(s) ==> c in s
  {
    var t := TrimStart(s);
    var r := TrimEnd(t);
    forall c | c in r ensures c in s {
      var i :| 0 <= i < |r| && r[i] == c;
      assert t[i] == c;
      assert s[|s| - |t| + i] == c;
    }
  }

  /** What `leer_config` has gathered so far: the last BASE and all tokens. */
  datatype Scan = Scan(base: Option<string>, tokens: seq<string>)

  /** What one line of the file contributes. */
  datatype LineKind = Passed | BaseSetting(value: string) | PeriodList(tokens: seq<string>)

  /** How the line loop treats one raw line. */
  function Classify(raw: string): (k: LineKind)
    ensures k.Passed? <==> IsSkipped(raw)
    ensures k.BaseSetting? <==> IsBaseLine(Strip(raw))
    ensures k.BaseSetting? ==> k.value == BaseValue(Strip(raw))
    ensures k.PeriodList? ==> k.tokens == LineTokens(Strip(raw))
  {
    var line := Strip(raw);
    if line == [] || line[0] == '#' then Passed
    else if IsBaseLine(line) then BaseSetting(BaseValue(line))
    else PeriodList(LineTokens(line))
  }

  /** One iteration of the line loop. */
  function Step(s: Scan, k: LineKind): Scan {
    match k
    case Passed => s
    case BaseSetting(v) => Scan(Some(v), s.tokens)
    case PeriodList(ts) => Scan(s.base, s.tokens + ts)
  }

  /** The state of the line loop after lines of the given kinds. */
  function ScanKinds(ks: seq<LineKind>): Scan {
    if ks == [] then Scan(None, [])
    else Step(ScanKinds(ks[..|ks| - 1]), ks[|ks| - 1])
  }

  /** The kind of every line, in order. */
  function Kinds(lines: seq<string>): seq<LineKind> {
    Map(Classify, lines)
  }

  /** The state of the line loop after the given lines. */
  function ScanLines(lines: seq<string>): Scan {
    ScanKinds(Kinds(lines))
  }

  predicate NoDuplicates(s: seq<string>) {
    forall i, j :: 0 <= i < j < |s| ==> s[i] != s[j]
  }

  /** The de-duplication loop: a value is kept the first time it is seen. */
  function Dedup(s: seq<string>): (d: seq<string>)
    ensures forall x :: x in d <==> x in s
    ensures NoDuplicates(d)
  {
    if s == [] then []
    else
      var d := Dedup(s[..|s| - 1]);
      var x := s[|s| - 1];
      assert forall y :: y in s <==> y in s[..|s| - 1] || y == x by {
        assert s == s[..|s| - 1] + [x];
      }
      if x in d then d else d + [x]
  }

  /** The period list a configuration file yields, or the error it raises. */
  function ParseConfig(lines: seq<string>): (r: Result<Config, ConfigError>)
    ensures ScanLines(lines).base.None? ==> r == Failure(MissingBase)
    ensures r.Success? ==>
      r.value.periods != [] && NoDuplicates(r.value.periods)
      && forall x :: x in r.value.periods <==> x in ScanLines(lines).tokens
  {
    var sc := ScanLines(lines);
    if sc.base.None? then Failure(MissingBase)
    else if sc.tokens == [] then Failure(NoPeriods)
    else Success(Config(sc.base.value, Dedup(sc.tokens)))
  }

  /** One pass of the line loop of `leer_config`. */
  method TakeLine(base: Option<string>, periods: seq<string>, raw: string) returns (base': Option<string>, periods': seq<string>)
    ensures Scan(base', periods') == Step(Scan(base, periods), Classify(raw))
  {
    base', periods' := base, periods;
    var line := Strip(raw);
    if line == [] || line[0] == '#' {
      return;
    }
    if IsBaseLine(line) {
      base' := Some(BaseValue(line));
      return;
    }
    periods' := AppendAll(periods, LineTokens(line));
  }

  /** `for p in partes: periodos.append(p)` */
  method AppendAll(periods: seq<string>, parts: seq<string>) returns (periods': seq<string>)
    ensures periods' == periods + parts
  {
    periods' := periods;
    for j := 0 to |parts|
      invariant periods' == periods + parts[..j]
    {
      assert parts[..j + 1] == parts[..j] + [parts[j]];
      periods' := periods' + [parts[j]];
    }
  }

  /** The line loop of `leer_config`: the last BASE value and every period token. */
  method CollectLines(lines: seq<string>) returns (base: Option<string>, periods: seq<string>)
    ensures Scan(base, periods) == ScanLines(lines)
  {
    base := None;
    periods := [];
    for i := 0 to |lines|
      invariant Scan(base, periods) == ScanKinds(Kinds(lines)[..i])
    {
      ScanKindsStep(lines, i);
      base, periods := TakeLine(base, periods, lines[i]);
    }
    assert Kinds(lines)[..|lines|] == Kinds(lines);
  }

  /** The line loop over the first `i + 1` lines is the loop over the first `i`, then line `i`. */
  lemma ScanKindsStep(lines: seq<string>, i: nat)
    requires i < |lines|
    ensures ScanKinds(Kinds(lines)[..i + 1]) == Step(ScanKinds(Kinds(lines)[..i]), Classify(lines[i]))
  {
    assert Kinds(lines)[..i + 1][..i] == Kinds(lines)[..i];
  }

  /** The de-duplication loop of `leer_config`. */
  method Unique(periods: seq<string>) returns (unique: seq<string>)
    ensures unique == Dedup(periods)
  {
    unique := [];
    for i := 0 to |periods|
      invariant unique == Dedup(periods[..i])
    {
      assert periods[..i + 1][..i] == periods[..i];
      if periods[i] !in unique {
        unique := unique + [periods[i]];
      }
    }
    assert periods[..|periods|] == periods;
  }

  /** `leer_config`, over the lines of the file. */
  method ReadConfig(lines: seq<string>) returns (r: Result<Config, ConfigError>)
    ensures r == ParseConfig(lines)
  {
    var base, periods := CollectLines(lines);
    if base.None? {
      return Failure(MissingBase);
    }
    if |periods| == 0 {
      return Failure(NoPeriods);
    }
    var unique := Unique(periods);
    return Success(Config(base.value, unique));
  }

  // ---------------------------------------------------------------------
  // Properties of the period list
  // ---------------------------------------------------------------------

  /** A passed-over line changes nothing wherever it stands. */
  lemma {:induction false} PassedIgnored(a: seq<LineKind>, b: seq<LineKind>)
    ensures ScanKinds(a + [Passed] + b) == ScanKinds(a + b)
    decreases |b|
  {
    if b == [] {
      assert (a + [Passed])[..|a|] == a;
      assert a + [Passed] + b == a + [Passed];
      assert a + b == a;
    } else {
      var b' := b[..|b| - 1];
      PassedIgnored(a, b');
      assert (a + [Passed] + b)[..|a + [Passed] + b| - 1] == a + [Passed] + b';
      assert (a + b)[..|a + b| - 1] == a + b';
    }
  }

  /** A base setting never contributes period tokens. */
  lemma {:induction false} BaseSettingAddsNoTokens(a: seq<LineKind>, v: string, b: seq<LineKind>)
    ensures ScanKinds(a + [BaseSetting(v)] + b).tokens == ScanKinds(a + b).tokens
    decreases |b|
  {
    if b == [] {
      assert (a + [BaseSetting(v)])[..|a|] == a;
      assert a + [BaseSetting(v)] + b == a + [BaseSetting(v)];
      assert a + b == a;
    } else {
      var b' := b[..|b| - 1];
      BaseSettingAddsNoTokens(a, v, b');
      assert (a + [BaseSetting(v)] + b)[..|a + [BaseSetting(v)] + b| - 1] == a + [BaseSetting(v)] + b';
      assert (a + b)[..|a + b| - 1] == a + b';
    }
  }

  /** Inserting a blank or comment line anywhere changes nothing. */
  lemma SkippedLineIgnored(a: seq<string>, line: string, b: seq<string>)
    requires IsSkipped(line)
    ensures ScanLines(a + [line] + b) == ScanLines(a + b)
  {
    MapConcat(Classify, a + [line], b);
    MapConcat(Classify, a, [line]);
    MapConcat(Classify, a, b);
    assert Kinds([line]) == [Passed];
    PassedIgnored(Kinds(a), Kinds(b));
  }

  /** A BASE line never contributes period tokens, wherever it stands. */
  lemma BaseLineAddsNoTokens(a: seq<string>, line: string, b: seq<string>)
    requires IsBaseLine(Strip(line))
    ensures ScanLines(a + [line] + b).tokens == ScanLines(a + b).tokens
  {
    MapConcat(Classify, a + [line], b);
    MapConcat(Classify, a, [line]);
    MapConcat(Classify, a, b);
    assert Kinds([line]) == [BaseSetting(BaseValue(Strip(line)))];
    BaseSettingAddsNoTokens(Kinds(a), BaseValue(Strip(line)), Kinds(b));
  }

  /** On kinds: the last base setting wins; no setting, no base. */
  lemma {:induction false} LastBaseSettingWins(ks: seq<LineKind>)
    ensures ScanKinds(ks).base.None? <==> forall i :: 0 <= i < |ks| ==> !ks[i].BaseSetting?
    ensures ScanKinds(ks).base.Some? ==>
      exists k :: 0 <= k < |ks| && ks[k].BaseSetting? && ScanKinds(ks).base.value == ks[k].value
        && forall j :: k < j < |ks| ==> !ks[j].BaseSetting?
  {
    if ks != [] {
      var n := |ks| - 1;
      var init := ks[..n];
      LastBaseSettingWins(init);
      assert forall i :: 0 <= i < n ==> ks[i] == init[i];
      if !ks[n].BaseSetting? && ScanKinds(init).base.Some? {
        var k :| 0 <= k < n && init[k].BaseSetting? && ScanKinds(init).base.value == init[k].value
          && forall j :: k < j < n ==> !init[j].BaseSetting?;
        assert ks[k] == init[k];
      }
    }
  }

  /**
    The base is the value of the LAST base line; there is a base exactly
    when some line is a base line.
  */
  lemma LastBaseLineWins(lines: seq<string>)
    ensures ScanLines(lines).base.None? <==> forall i :: 0 <= i < |lines| ==> !IsBaseLine(Strip(lines[i]))
    ensures ScanLines(lines).base.Some? ==>
      exists k :: 0 <= k < |lines| && IsBaseLine(Strip(lines[k]))
        && ScanLines(lines).base.value == BaseValue(Strip(lines[k]))
        && forall j :: k < j < |lines| ==> !IsBaseLine(Strip(lines[j]))
  {
    var ks := Kinds(lines);
    LastBaseSettingWins(ks);
    assert forall i :: 0 <= i < |lines| ==> ks[i] == Classify(lines[i]);
    if ScanKinds(ks).base.Some? {
      var k :| 0 <= k < |ks| && ks[k].BaseSetting? && ScanKinds(ks).base.value == ks[k].value
        && forall j :: k < j < |ks| ==> !ks[j].BaseSetting?;
      assert IsBaseLine(Strip(lines[k])) && ScanLines(lines).base.value == BaseValue(Strip(lines[k]));
    }
  }

  /** On kinds: what the tokens hold, and when there are none. */
  lemma {:induction false} KindTokens(ks: seq<LineKind>)
    ensures ScanKinds(ks).tokens == [] <==> forall i :: 0 <= i < |ks| && ks[i].PeriodList? ==> ks[i].tokens == []
    ensures forall p :: p in ScanKinds(ks).tokens ==> exists i :: 0 <= i < |ks| && ks[i].PeriodList? && p in ks[i].tokens
  {
    if ks != [] {
      var n := |ks| - 1;
      var init := ks[..n];
      KindTokens(init);
      assert forall i :: 0 <= i < n ==> ks[i] == init[i];
      forall p | p in ScanKinds(ks).tokens
        ensures exists i :: 0 <= i < |ks| && ks[i].PeriodList? && p in ks[i].tokens
      {
        if p in ScanKinds(init).tokens {
          var i :| 0 <= i < n && init[i].PeriodList? && p in init[i].tokens;
          assert ks[i] == init[i];
        } else {
          assert ks[n].PeriodList? && p in ks[n].tokens;
        }
      }
    }
  }

  /** Every gathered token is non-empty, trimmed and free of `;`. */
  lemma TokensWellFormed(lines: seq<string>)
    ensures forall p :: p in ScanLines(lines).tokens ==> p != [] && Strip(p) == p && ';' !in p
  {
    var ks := Kinds(lines);
    KindTokens(ks);
    forall p | p in ScanKinds(ks).tokens ensures p != [] && Strip(p) == p && ';' !in p {
      var i :| 0 <= i < |ks| && ks[i].PeriodList? && p in ks[i].tokens;
      assert ks[i] == Classify(lines[i]);
    }
  }

  /** The position of the first occurrence of `x` in `s`. */
  function FirstIndex(s: seq<string>, x: string): (i: nat)
    requires x in s
    ensures i < |s| && s[i] == x
    ensures forall j :: 0 <= j < i ==> s[j] != x
  {
    if s[0] == x then 0 else 1 + FirstIndex(s[1..], x)
  }

  lemma {:induction false} FirstIndexInPrefix(p: seq<string>, x: string, y: string)
    requires y in p
    ensures FirstIndex(p + [x], y) == FirstIndex(p, y)
  {
    var i := FirstIndex(p, y);
    var k := FirstIndex(p + [x], y);
    assert (p + [x])[i] == y;
    assert p[k] == y || k == |p|;
  }

  /** De-duplication keeps the order in which values first appear. */
  lemma {:induction false} DedupKeepsFirstSeenOrder(s: seq<string>)
    ensures forall i, j :: 0 <= i < j < |Dedup(s)| ==>
      FirstIndex(s, Dedup(s)[i]) < FirstIndex(s, Dedup(s)[j])
  {
    if s != [] {
      var p := s[..|s| - 1];
      var x := s[|s| - 1];
      assert s == p + [x];
      var d := Dedup(p);
      DedupKeepsFirstSeenOrder(p);
      forall y | y in d ensures FirstIndex(s, y) == FirstIndex(p, y) {
        FirstIndexInPrefix(p, x, y);
      }
      if x !in d {
        assert FirstIndex(s, x) == |p|;
        assert Dedup(s) == d + [x];
      }
    }
  }

  /**
    Both errors of the configuration: no base when no line is a BASE line;
    no periods when there is a base but every period line is empty of
    tokens. A success lists each gathered token once.
  */
  lemma ParseConfigOutcome(lines: seq<string>)
    ensures ParseConfig(lines) == Failure(MissingBase) <==>
      forall i :: 0 <= i < |lines| ==> !IsBaseLine(Strip(lines[i]))
    ensures ParseConfig(lines) == Failure(NoPeriods) <==>
      (exists i :: 0 <= i < |lines| && IsBaseLine(Strip(lines[i])))
      && forall i :: 0 <= i < |lines| && !IsSkipped(lines[i]) && !IsBaseLine(Strip(lines[i])) ==>
           LineTokens(Strip(lines[i])) == []
    ensures ParseConfig(lines).Success? ==>
      var c := ParseConfig(lines).value;
      c.periods != [] && NoDuplicates(c.periods)
      && (forall x :: x in c.periods <==> x in ScanLines(lines).tokens)
      && (forall p :: p in c.periods ==> p != [] && Strip(p) == p && ';' !in p)
  {
    LastBaseLineWins(lines);
    TokensWellFormed(lines);
    var ks := Kinds(lines);
    KindTokens(ks);
    assert forall i :: 0 <= i < |lines| ==> ks[i] == Classify(lines[i]);
    var sc := ScanLines(lines);
    if sc.base.Some? && sc.tokens != [] {
      assert sc.tokens[0] in Dedup(sc.tokens);
    }
  }

  // ---------------------------------------------------------------------
  // Addresses and local files
  // ---------------------------------------------------------------------

  const OutDir: string := "data/raw/yellow"

  function FileName(period: string): string {
    "yellow_tripdata_" + period + ".parquet"
  }

  /** `construir_url`: an address under `base` naming a `.parquet` file. */
  function Url(base: string, period: string): (u: string)
    ensures |u| == |base| + |period| + 25
    ensures u[..|base| + 1] == base + "/" && u[|u| - 8..] == ".parquet"
  {
    base + "/" + FileName(period)
  }

  /**
    The local target `carpeta_salida / f"yellow_tripdata_{periodo}.parquet"`:
    a `.parquet` file in the output directory.
  */
  function OutPath(period: string): (o: string)
    ensures |o| == |OutDir| + |period| + 25
    ensures o[..|OutDir| + 1] == OutDir + "/" && o[|o| - 8..] == ".parquet"
  {
    OutDir + "/" + FileName(period)
  }

  /**
    For a period without `/`, the URL's last component is the local file's
    name: the download lands in a file named after what it fetched.
  */
  lemma UrlNamesLocalFile(base: string, period: string)
    requires '/' !in period
    ensures LastSegment(Url(base, period)) == FileName(period)
    ensures LastSegment(OutPath(period)) == FileName(period)
  {
    assert '/' !in FileName(period) by {
      assert FileName(period) == "yellow_tripdata_" + period + ".parquet";
      assert forall c :: c in FileName(period) ==> c in "yellow_tripdata_" || c in period || c in ".parquet";
    }
    LastSegmentOfJoin(base, FileName(period));
    LastSegmentOfJoin(OutDir, FileName(period));
  }

  /** Different periods are fetched from different URLs. */
  lemma PeriodDeterminesUrl(base: string, p: string, q: string)
    ensures Url(base, p) == Url(base, q) ==> p == q
  {
    if Url(base, p) == Url(base, q) {
      var pre := |base| + 17;
      assert p == Url(base, p)[pre..pre + |p|];
      assert q == Url(base, q)[pre..pre + |q|];
    }
  }

  /**
    Different periods without `/` are stored in different files (with a
    `/` in a period `pathlib` may normalise two targets to one path).
  */
  lemma PeriodDeterminesOutPath(p: string, q: string)
    requires '/' !in p && '/' !in q
    ensures OutPath(p) == OutPath(q) ==> p == q
  {
    if OutPath(p) == OutPath(q) {
      var pre := |OutDir| + 17;
      assert p == OutPath(p)[pre..pre + |p|];
      assert q == OutPath(q)[pre..pre + |q|];
    }
  }

  // ---------------------------------------------------------------------
  // Downloading
  // ---------------------------------------------------------------------

  /**
    `descargar`: the machine after one attempt. Exactly one audit line is
    appended; it is SKIP, with no request and no file change, when the
    target already holds data; otherwise one request is made and the line
    is OK for a complete transfer and FAIL for any error, which is never
    raised further. Only the target file can change.
  */
  function Download(s: Snapshot, url: string, out: string, period: string, net: string -> Transfer): (s': Snapshot)
    ensures |s'.log| == |s.log| + 1 && s'.log[..|s.log|] == s.log
    ensures s'.log[|s.log|].Attempt?
    ensures s'.log[|s.log|].period == period && s'.log[|s.log|].name == LastSegment(out)
    ensures s'.log[|s.log|].outcome == Skip <==> HasData(s.files, out)
    ensures s'.log[|s.log|].outcome == Ok <==> !HasData(s.files, out) && net(url).Complete?
    ensures HasData(s.files, out) ==> s'.files == s.files && s'.requests == s.requests
    ensures !HasData(s.files, out) ==> s'.requests == s.requests + [url]
    ensures s'.files.Keys <= s.files.Keys + {out}
    ensures forall p :: p in s.files && p != out ==> p in s'.files && s'.files[p] == s.files[p]
  {
    var name := LastSegment(out);
    if HasData(s.files, out) then
      s.(log := s.log + [Attempt(period, name, Skip)])
    else
      var asked := s.(requests := s.requests + [url]);
      match net(url)
      case Complete(chunks) =>
        asked.(files := s.files[out := Total(chunks)], log := s.log + [Attempt(period, name, Ok)])
      case Refused(detail) =>
        asked.(log := s.log + [Attempt(period, name, Fail(detail))])
      case Broken(chunks, detail) =>
        asked.(files := s.files[out := Total(chunks)], log := s.log + [Attempt(period, name, Fail(detail))])
  }

  /** `descargar(url, salida, ruta_log, periodo)` */
  method DownloadPeriod(m: Machine, url: string, out: string, period: string, net: string -> Transfer)
    modifies m
    ensures m.State() == Download(old(m.State()), url, out, period, net)
  {
    var name := LastSegment(out);
    if out in m.files && m.files[out] > 0 {
      m.AppendLog(Attempt(period, name, Skip));
      return;
    }
    var t := m.Get(url, net);
    match t {
      case Complete(chunks) =>
        m.WriteChunks(out, chunks);
        m.AppendLog(Attempt(period, name, Ok));
      case Refused(detail) =>
        m.AppendLog(Attempt(period, name, Fail(detail)));
      case Broken(chunks, detail) =>
        m.WriteChunks(out, chunks);
        m.AppendLog(Attempt(period, name, Fail(detail)));
    }
  }

  /**
    A transfer that breaks after delivering bytes is logged FAIL but leaves
    its partial file behind, and the next attempt at the same target skips
    it as if it were complete.
  */
  lemma PartialFileLaterSkipped(s: Snapshot, url: string, out: string, period: string, net: string -> Transfer)
    requires !HasData(s.files, out)
    requires net(url).Broken? && Total(net(url).chunks) > 0
    ensures var s' := Download(s, url, out, period, net);
      s'.log[|s.log|].outcome.Fail? && HasData(s'.files, out)
      && Download(s', url, out, period, net).log[|s'.log|].outcome == Skip
  {
  }

  /** The period loop of `main`, in list order. */
  function DownloadAll(s: Snapshot, base: string, periods: seq<string>, net: string -> Transfer): (s': Snapshot)
    ensures |s'.log| == |s.log| + |periods| && s'.log[..|s.log|] == s.log
    ensures forall f :: f in s.files && (forall q :: q in periods ==> f != OutPath(q)) ==>
      f in s'.files && s'.files[f] == s.files[f]
  {
    if periods == [] then s
    else
      var p := periods[|periods| - 1];
      Download(DownloadAll(s, base, periods[..|periods| - 1], net), Url(base, p), OutPath(p), p, net)
  }

  datatype RunResult = RunResult(status: Result<Config, ConfigError>, after: Snapshot)

  /** The body of `main` once the configuration is read. */
  function Execute(s: Snapshot, c: Config, net: string -> Transfer): (t: Snapshot)
    ensures |t.log| == |s.log| + |c.periods| + 2 && t.log[..|s.log|] == s.log
    ensures t.log[|s.log|] == Start(c.base, |c.periods|) && t.log[|t.log| - 1] == Finish
  {
    var started := s.(log := s.log + [Start(c.base, |c.periods|)]);
    var done := DownloadAll(started, c.base, c.periods, net);
    done.(log := done.log + [Finish])
  }

  /**
    `main`: a configuration error stops the run before any request or log
    line; otherwise a start line, one attempt per period, and an end line.
  */
  function Run(s: Snapshot, lines: seq<string>, net: string -> Transfer): (r: RunResult)
    ensures r.status == ParseConfig(lines)
    ensures r.status.Failure? ==> r.after == s
  {
    match ParseConfig(lines)
    case Failure(e) => RunResult(Failure(e), s)
    case Success(c) => RunResult(Success(c), Execute(s, c, net))
  }

  /** `main()`, over the lines of the configuration file. */
  method RunAcquirer(m: Machine, lines: seq<string>, net: string -> Transfer) returns (r: Result<Config, ConfigError>)
    modifies m
    ensures RunResult(r, m.State()) == Run(old(m.State()), lines, net)
  {
    r := ReadConfig(lines);
    if r.Failure? {
      return;
    }
    var base, periods := r.value.base, r.value.periods;
    m.AppendLog(Start(base, |periods|));
    DownloadEach(m, base, periods, net);
    m.AppendLog(Finish);
  }

  /** The period loop of `main`: one download per period, in list order. */
  method DownloadEach(m: Machine, base: string, periods: seq<string>, net: string -> Transfer)
    modifies m
    ensures m.State() == DownloadAll(old(m.State()), base, periods, net)
  {
    for i := 0 to |periods|
      invariant m.State() == DownloadAll(old(m.State()), base, periods[..i], net)
    {
      DownloadAllStep(old(m.State()), base, periods, i, net);
      DownloadPeriod(m, Url(base, periods[i]), OutPath(periods[i]), periods[i], net);
    }
    assert periods[..|periods|] == periods;
  }

  /** The loop over the first `i + 1` periods is the loop over the first `i`, then period `i`. */
  lemma DownloadAllStep(s: Snapshot, base: string, periods: seq<string>, i: nat, net: string -> Transfer)
    requires i < |periods|
    ensures var p := periods[i];
      DownloadAll(s, base, periods[..i + 1], net) == Download(DownloadAll(s, base, periods[..i], net), Url(base, p), OutPath(p), p, net)
  {
    assert periods[..i + 1][..i] == periods[..i];
  }

  // ---------------------------------------------------------------------
  // Properties of a run
  // ---------------------------------------------------------------------

  /** The period loop appends one attempt line per period, in list order. */
  lemma {:induction false} DownloadAllLog(s: Snapshot, base: string, periods: seq<string>, net: string -> Transfer)
    ensures var s' := DownloadAll(s, base, periods, net);
      |s'.log| == |s.log| + |periods| && s'.log[..|s.log|] == s.log
      && forall j :: |s.log| <= j < |s'.log| ==>
           s'.log[j].Attempt?
           && s'.log[j].period == periods[j - |s.log|]
           && s'.log[j].name == LastSegment(OutPath(periods[j - |s.log|]))
  {
    if periods != [] {
      var n := |periods| - 1;
      var init := periods[..n];
      var mid := DownloadAll(s, base, init, net);
      var s' := Download(mid, Url(base, periods[n]), OutPath(periods[n]), periods[n], net);
      assert s' == DownloadAll(s, base, periods, net);
      DownloadAllLog(s, base, init, net);
      forall j | |s.log| <= j < |mid.log|
        ensures s'.log[j] == mid.log[j] && init[j - |s.log|] == periods[j - |s.log|]
      {
      }
      assert s'.log[..|s.log|] == s'.log[..|mid.log|][..|s.log|];
    }
  }

  /**
    A run writes a start line naming the base and the number of periods,
    one attempt line per period in list order, then an end line.
  */
  lemma ExecuteLogShape(s: Snapshot, c: Config, net: string -> Transfer)
    ensures var t := Execute(s, c, net);
      |t.log| == |s.log| + |c.periods| + 2
      && t.log[..|s.log|] == s.log
      && t.log[|s.log|] == Start(c.base, |c.periods|)
      && t.log[|t.log| - 1] == Finish
      && forall j :: |s.log| < j < |t.log| - 1 ==>
           t.log[j].Attempt? && t.log[j].period == c.periods[j - |s.log| - 1]
  {
    var started := s.(log := s.log + [Start(c.base, |c.periods|)]);
    DownloadAllLog(started, c.base, c.periods, net);
    ExecuteLogStart(s, c, net);
    var done := DownloadAll(started, c.base, c.periods, net);
    var t := Execute(s, c, net);
    forall j | |s.log| < j < |t.log| - 1
      ensures t.log[j].Attempt? && t.log[j].period == c.periods[j - |s.log| - 1]
    {
      assert t.log[j] == done.log[j];
      assert |started.log| <= j < |done.log|;
    }
  }

  /** The lines before the period loop's: the earlier log, then the start line. */
  lemma ExecuteLogStart(s: Snapshot, c: Config, net: string -> Transfer)
    ensures var t := Execute(s, c, net);
      |t.log| == |s.log| + |c.periods| + 2
      && t.log[..|s.log|] == s.log
      && t.log[|s.log|] == Start(c.base, |c.periods|)
      && t.log[|t.log| - 1] == Finish
  {
    var started := s.(log := s.log + [Start(c.base, |c.periods|)]);
    DownloadAllLog(started, c.base, c.periods, net);
    var done := DownloadAll(started, c.base, c.periods, net);
    var t := Execute(s, c, net);
    assert t.log[..|done.log|] == done.log;
    assert t.log[|s.log|] == done.log[|s.log|] == started.log[|s.log|];
    assert t.log[..|s.log|] == done.log[..|s.log|] == started.log[..|s.log|];
  }

  /** When every target already holds data, the period loop only writes SKIP lines. */
  lemma {:induction false} DownloadAllSkipsPresent(s: Snapshot, base: string, periods: seq<string>, net: string -> Transfer)
    requires forall p :: p in periods ==> HasData(s.files, OutPath(p))
    ensures var s' := DownloadAll(s, base, periods, net);
      s'.files == s.files && s'.requests == s.requests
      && |s'.log| == |s.log| + |periods|
      && forall i :: |s.log| <= i < |s'.log| ==> s'.log[i].Attempt? && s'.log[i].outcome == Skip
  {
    if periods != [] {
      var init := periods[..|periods| - 1];
      assert forall p :: p in init ==> p in periods;
      DownloadAllSkipsPresent(s, base, init, net);
      assert periods[|periods| - 1] in periods;
    }
  }

  /**
    Idempotence: a run whose every target file already holds data makes no
    request, changes no file, and logs only SKIP between its start and end.
  */
  lemma RunIsIdempotent(s: Snapshot, lines: seq<string>, net: string -> Transfer)
    requires ParseConfig(lines).Success?
    requires forall p :: p in ParseConfig(lines).value.periods ==> HasData(s.files, OutPath(p))
    ensures var r := Run(s, lines, net);
      r.after.files == s.files && r.after.requests == s.requests
      && forall i :: |s.log| < i < |r.after.log| - 1 ==> r.after.log[i].Attempt? && r.after.log[i].outcome == Skip
  {
    var c := ParseConfig(lines).value;
    var started := s.(log := s.log + [Start(c.base, |c.periods|)]);
    DownloadAllSkipsPresent(started, c.base, c.periods, net);
    assert Run(s, lines, net).after == Execute(s, c, net);
  }

  /** A file that holds data keeps it through any download attempt. */
  lemma {:induction false} DownloadAllKeepsData(s: Snapshot, base: string, periods: seq<string>, net: string -> Transfer, path: string)
    requires HasData(s.files, path)
    ensures HasData(DownloadAll(s, base, periods, net).files, path)
  {
    if periods != [] {
      DownloadAllKeepsData(s, base, periods[..|periods| - 1], net, path);
    }
  }

  /** After the period loop, every period whose transfer delivers bytes has its file. */
  lemma {:induction false} DownloadAllFills(s: Snapshot, base: string, periods: seq<string>, net: string -> Transfer)
    requires forall p :: p in periods ==> net(Url(base, p)).Complete? && Total(net(Url(base, p)).chunks) > 0
    ensures forall p :: p in periods ==> HasData(DownloadAll(s, base, periods, net).files, OutPath(p))
  {
    if periods != [] {
      var init := periods[..|periods| - 1];
      var last := periods[|periods| - 1];
      assert forall p :: p in init ==> p in periods;
      DownloadAllFills(s, base, init, net);
      var mid := DownloadAll(s, base, init, net);
      forall p | p in periods ensures HasData(DownloadAll(s, base, periods, net).files, OutPath(p)) {
        if p in init {
          DownloadAllKeepsData(mid, base, [last], net, OutPath(p));
          assert [last][..0] == [];
        } else {
          assert p == last;
        }
      }
    }
  }

  /**
    Running twice with the same period list, when every transfer delivers
    bytes, downloads nothing more the second time and logs only SKIP.
  */
  lemma SecondRunOnlySkips(s: Snapshot, lines: seq<string>, net: string -> Transfer)
    requires ParseConfig(lines).Success?
    requires var c := ParseConfig(lines).value;
      forall p :: p in c.periods ==> net(Url(c.base, p)).Complete? && Total(net(Url(c.base, p)).chunks) > 0
    ensures var first := Run(s, lines, net).after;
      var second := Run(first, lines, net).after;
      second.requests == first.requests && second.files == first.files
      && forall i :: |first.log| < i < |second.log| - 1 ==> second.log[i].Attempt? && second.log[i].outcome == Skip
  {
    var c := ParseConfig(lines).value;
    var started := s.(log := s.log + [Start(c.base, |c.periods|)]);
    DownloadAllFills(started, c.base, c.periods, net);
    RunIsIdempotent(Run(s, lines, net).after, lines, net);
  }
}
