/**
  The first acquirer script (`import_data.py`): a fixed list of three
  months, each fetched from the public trip-data server into
  `data/raw/yellow`, skipping files that already hold data. Unlike the
  newer acquirer it keeps no audit log and does not catch errors: the
  first failing transfer ends the script.
*/
module LegacyAcquirer {
  import opened Wrappers
  import opened Seqs
  import opened Text
  import opened Host

  const Base: string := "https://d37ci6vzurychx.cloudfront.net/trip-data"
  const OutDir: string := "data/raw/yellow"

  /** The (year, month) pairs of the top-level loop, in order. */
  const Months: seq<(int, int)> := [(2025, 8), (2025, 9), (2025, 10)]

  /** `f"{year}-{month:02d}"` */
  function Tag(year: int, month: int): (t: string)
    ensures forall c :: c in t ==> IsDigit(c) || c == '-'
  {
    IntToString(year) + "-" + ZeroPad2(month)
  }

  function FileName(year: int, month: int): string {
    "yellow_tripdata_" + Tag(year, month) + ".parquet"
  }

  /** `yellow_url` */
  function YellowUrl(year: int, month: int): (u: string)
    ensures |u| == |Base| + |Tag(year, month)| + 25
    ensures u[..|Base| + 1] == Base + "/" && u[|u| - 8..] == ".parquet"
  {
    Base + "/" + FileName(year, month)
  }

  /** `OUT_DIR / f"yellow_tripdata_{y}-{m:02d}.parquet"` */
  function OutPath(year: int, month: int): string {
    OutDir + "/" + FileName(year, month)
  }

  /** The file a month is stored in is named after the last component of its URL. */
  lemma OutFileNamedAfterUrl(year: int, month: int)
    ensures LastSegment(OutPath(year, month)) == LastSegment(YellowUrl(year, month)) == FileName(year, month)
  {
    assert '/' !in FileName(year, month) by {
      assert FileName(year, month) == "yellow_tripdata_" + Tag(year, month) + ".parquet";
      forall c | c in FileName(year, month) ensures c != '/' {
        assert c in "yellow_tripdata_" || c in Tag(year, month) || c in ".parquet";
      }
    }
    LastSegmentOfJoin(OutDir, FileName(year, month));
    LastSegmentOfJoin(Base, FileName(year, month));
  }

  /** The month is written with exactly two digits that read back as the month. */
  lemma TagLayout(year: nat, month: int)
    requires 1 <= month <= 12
    ensures var t := Tag(year, month);
      |t| == |NatToString(year)| + 3
      && t[..|t| - 3] == NatToString(year)
      && t[|t| - 3] == '-'
      && ParseNat(t[|t| - 2..]) == month
  {
    var t := Tag(year, month);
    assert t[|t| - 2..] == ZeroPad2(month);
  }

  /** Distinct months (of non-negative years) get distinct tags. */
  lemma TagInjective(y1: nat, m1: int, y2: nat, m2: int)
    requires 0 <= m1 < 100 && 0 <= m2 < 100
    requires Tag(y1, m1) == Tag(y2, m2)
    ensures y1 == y2 && m1 == m2
  {
    var t1, t2 := Tag(y1, m1), Tag(y2, m2);
    var n1, n2 := NatToString(y1), NatToString(y2);
    assert |n1| == |n2| by {
      assert t1[|n1|] == '-' && t2[|n2|] == '-';
      assert forall i :: 0 <= i < |n1| ==> t1[i] == n1[i];
      assert forall i :: 0 <= i < |n2| ==> t2[i] == n2[i];
    }
    assert n1 == t1[..|n1|] == t2[..|n2|] == n2;
    NatToStringInjective(y1, y2);
    assert ZeroPad2(m1) == t1[|n1| + 1..] == t2[|n2| + 1..] == ZeroPad2(m2);
  }

  /** Distinct months (of non-negative years) get distinct file names. */
  lemma FileNameDeterminesMonth(y1: nat, m1: int, y2: nat, m2: int)
    requires 0 <= m1 < 100 && 0 <= m2 < 100
    requires FileName(y1, m1) == FileName(y2, m2)
    ensures y1 == y2 && m1 == m2
  {
    InfixCancel("yellow_tripdata_", Tag(y1, m1), Tag(y2, m2), ".parquet");
    TagInjective(y1, m1, y2, m2);
  }

  /** Distinct months (of non-negative years) are fetched from distinct URLs. */
  lemma UrlDeterminesMonth(y1: nat, m1: int, y2: nat, m2: int)
    requires 0 <= m1 < 100 && 0 <= m2 < 100
    requires YellowUrl(y1, m1) == YellowUrl(y2, m2)
    ensures y1 == y2 && m1 == m2
  {
    PrefixCancel(Base + "/", FileName(y1, m1), FileName(y2, m2));
    FileNameDeterminesMonth(y1, m1, y2, m2);
  }

  /** Distinct months (of non-negative years) are stored in distinct files. */
  lemma PathDeterminesMonth(y1: nat, m1: int, y2: nat, m2: int)
    requires 0 <= m1 < 100 && 0 <= m2 < 100
    requires OutPath(y1, m1) == OutPath(y2, m2)
    ensures y1 == y2 && m1 == m2
  {
    PrefixCancel(OutDir + "/", FileName(y1, m1), FileName(y2, m2));
    FileNameDeterminesMonth(y1, m1, y2, m2);
  }

  /** The tags of the script's three months. */
  lemma ScriptTags()
    ensures Tag(2025, 8) == "2025-08" && Tag(2025, 9) == "2025-09" && Tag(2025, 10) == "2025-10"
  {
    assert NatToString(2025) == "2025" by {
      assert NatToString(202) == "202" by {
        assert NatToString(20) == "20";
      }
    }
    assert ZeroPad2(10) == "10" by {
      assert NatToString(10) == "10";
    }
  }

  /**
    `download_file`: the machine afterwards and the error it raised, if
    any. A target that holds data is left alone with no request; otherwise
    one request is made and an error (before the file is opened, or while
    streaming into it) is raised to the caller. Nothing is logged.
  */
  function DownloadFile(s: Snapshot, url: string, out: string, net: string -> Transfer): (r: (Snapshot, Option<string>))
    ensures r.0.log == s.log
    ensures HasData(s.files, out) ==> r == (s, None)
    ensures !HasData(s.files, out) ==> r.0.requests == s.requests + [url]
    ensures r.1.Some? <==> !HasData(s.files, out) && !net(url).Complete?
    ensures r.1.Some? ==> r.1.value == net(url).detail
    ensures net(url).Refused? ==> r.0.files == s.files
    ensures !HasData(s.files, out) && !net(url).Refused? ==> r.0.files == s.files[out := Total(net(url).chunks)]
  {
    if HasData(s.files, out) then (s, None)
    else
      var asked := s.(requests := s.requests + [url]);
      match net(url)
      case Complete(chunks) => (asked.(files := s.files[out := Total(chunks)]), None)
      case Refused(detail) => (asked, Some(detail))
      case Broken(chunks, detail) => (asked.(files := s.files[out := Total(chunks)]), Some(detail))
  }

  /** `download_file(url, out_path)` */
  method FetchFile(m: Machine, url: string, out: string, net: string -> Transfer) returns (err: Option<string>)
    modifies m
    ensures (m.State(), err) == DownloadFile(old(m.State()), url, out, net)
  {
    if out in m.files && m.files[out] > 0 {
      return None;
    }
    var t := m.Get(url, net);
    match t {
      case Complete(chunks) =>
        m.WriteChunks(out, chunks);
        err := None;
      case Refused(detail) =>
        err := Some(detail);
      case Broken(chunks, detail) =>
        m.WriteChunks(out, chunks);
        err := Some(detail);
    }
  }

  /** The months loop: months in order, stopping at the first raised error. */
  function FetchAll(s: Snapshot, months: seq<(int, int)>, net: string -> Transfer): (r: (Snapshot, Option<string>))
    ensures r.0.log == s.log
    ensures forall f :: f in s.files && (forall k :: 0 <= k < |months| ==> f != OutPath(months[k].0, months[k].1)) ==>
      f in r.0.files && r.0.files[f] == s.files[f]
    decreases |months|
  {
    if months == [] then (s, None)
    else
      var (y, m) := months[0];
      var r := DownloadFile(s, YellowUrl(y, m), OutPath(y, m), net);
      if r.1.Some? then r else FetchAll(r.0, months[1..], net)
  }

  /** The script's top-level loop; the error it returns is the one that ends the script. */
  method RunScript(m: Machine, net: string -> Transfer) returns (err: Option<string>)
    modifies m
    ensures (m.State(), err) == FetchAll(old(m.State()), Months, net)
  {
    err := None;
    var i := 0;
    while i < |Months|
      invariant 0 <= i <= |Months|
      invariant err.None?
      invariant FetchAll(old(m.State()), Months, net) == FetchAll(m.State(), Months[i..], net)
    {
      var (y, mo) := Months[i];
      err := FetchFile(m, YellowUrl(y, mo), OutPath(y, mo), net);
      if err.Some? {
        return;
      }
      i := i + 1;
    }
  }

  /**
    Fail-fast: running two month lists one after the other is running
    their concatenation, and an error in the first list means nothing of
    the second is attempted.
  */
  lemma {:induction false} FetchAllConcat(s: Snapshot, a: seq<(int, int)>, b: seq<(int, int)>, net: string -> Transfer)
    ensures var r := FetchAll(s, a, net);
      FetchAll(s, a + b, net) == (if r.1.Some? then r else FetchAll(r.0, b, net))
    decreases |a|
  {
    if a != [] {
      assert (a + b)[0] == a[0];
      assert (a + b)[1..] == a[1..] + b;
      var (y, m) := a[0];
      var r := DownloadFile(s, YellowUrl(y, m), OutPath(y, m), net);
      if r.1.None? {
        FetchAllConcat(r.0, a[1..], b, net);
      }
    } else {
      assert a + b == b;
    }
  }

  /** The script never logs, and every request it makes is for one of its months, in order. */
  lemma {:induction false} FetchAllRequests(s: Snapshot, months: seq<(int, int)>, net: string -> Transfer)
    ensures var r := FetchAll(s, months, net);
      r.0.log == s.log
      && |s.requests| <= |r.0.requests| <= |s.requests| + |months|
      && r.0.requests[..|s.requests|] == s.requests
      && forall j :: |s.requests| <= j < |r.0.requests| ==>
           exists i :: 0 <= i < |months| && r.0.requests[j] == YellowUrl(months[i].0, months[i].1)
    decreases |months|
  {
    if months != [] {
      var (y, m) := months[0];
      var r1 := DownloadFile(s, YellowUrl(y, m), OutPath(y, m), net);
      if r1.1.None? {
        FetchAllRequests(r1.0, months[1..], net);
        var r := FetchAll(r1.0, months[1..], net);
        assert r.0.requests[..|s.requests|] == r.0.requests[..|r1.0.requests|][..|s.requests|];
        forall j | |s.requests| <= j < |r.0.requests|
          ensures exists i :: 0 <= i < |months| && r.0.requests[j] == YellowUrl(months[i].0, months[i].1)
        {
          if j < |r1.0.requests| {
            assert r.0.requests[j] == r1.0.requests[j] == YellowUrl(months[0].0, months[0].1);
          } else {
            var i :| 0 <= i < |months[1..]| && r.0.requests[j] == YellowUrl(months[1..][i].0, months[1..][i].1);
            assert months[1..][i] == months[i + 1];
          }
        }
      } else {
        assert r1.0.requests[|s.requests|] == YellowUrl(months[0].0, months[0].1);
      }
    }
  }

  /** Re-running the script when every month's file holds data does nothing. */
  lemma {:induction false} FetchAllSkipsPresent(s: Snapshot, months: seq<(int, int)>, net: string -> Transfer)
    requires forall i :: 0 <= i < |months| ==> HasData(s.files, OutPath(months[i].0, months[i].1))
    ensures FetchAll(s, months, net) == (s, None)
    decreases |months|
  {
    if months != [] {
      assert HasData(s.files, OutPath(months[0].0, months[0].1));
      FetchAllSkipsPresent(s, months[1..], net);
    }
  }
}
