/**
  The local machine as the two download scripts see it: the size of every
  file on disk, the URLs requested from the download server so far, and the
  lines of the audit log. The download server is an oracle: for each URL it
  says what the transfer does (the chunks it delivers, or the error it
  raises and when).
*/
module Host {

  /** What one `requests.get(url, stream=True)` does. */
  datatype Transfer =
      /** a 2xx answer whose body arrives as these chunks (sizes in bytes) */
    | Complete(chunks: seq<nat>)
      /** an error raised before the output file is opened: connection
          failure, timeout, a non-2xx status from `raise_for_status()`, or
          an unreadable `content-length` header */
    | Refused(detail: string)
      /** the stream breaks after these chunks were written to the file */
    | Broken(chunks: seq<nat>, detail: string)

  /** The outcome tag of one audit-log line. */
  datatype Outcome = Skip | Ok | Fail(detail: string)

  /** One line of the audit log; timestamps are not modelled. */
  datatype Entry =
    | Start(base: string, count: nat)
    | Attempt(period: string, name: string, outcome: Outcome)
    | Finish

  datatype Snapshot = Snapshot(files: map<string, nat>, requests: seq<string>, log: seq<Entry>)

  /** `path.exists() and path.stat().st_size > 0` */
  predicate HasData(files: map<string, nat>, path: string) {
    path in files && files[path] > 0
  }

  /** Number of bytes in a sequence of chunks. */
  function Total(chunks: seq<nat>): nat {
    if chunks == [] then 0 else Total(chunks[..|chunks| - 1]) + chunks[|chunks| - 1]
  }

  class Machine {
    var files: map<string, nat>
    var requests: seq<string>
    var log: seq<Entry>

    constructor (files: map<string, nat>, log: seq<Entry>)
      ensures this.files == files && requests == [] && this.log == log
    {
      this.files := files;
      requests := [];
      this.log := log;
    }

    function State(): Snapshot
      reads this
    {
      Snapshot(files, requests, log)
    }

    /** Issues one request; the server answers as `net` says. */
    method Get(url: string, net: string -> Transfer) returns (t: Transfer)
      modifies this
      ensures t == net(url)
      ensures requests == old(requests) + [url]
      ensures files == old(files) && log == old(log)
    {
      requests := requests + [url];
      t := net(url);
    }

    /** Appends one line to the audit log. */
    method AppendLog(e: Entry)
      modifies this
      ensures log == old(log) + [e]
      ensures files == old(files) && requests == old(requests)
    {
      log := log + [e];
    }

    /**
      `open(path, "wb")` followed by the chunk loop: the file is truncated,
      then every non-empty chunk is appended.
    */
    method WriteChunks(path: string, chunks: seq<nat>)
      modifies this
      ensures files == old(files)[path := Total(chunks)]
      ensures requests == old(requests) && log == old(log)
    {
      files := files[path := 0];
      var i := 0;
      while i < |chunks|
        invariant 0 <= i <= |chunks|
        invariant files == old(files)[path := Total(chunks[..i])]
        invariant requests == old(requests) && log == old(log)
      {
        assert chunks[..i + 1][..i] == chunks[..i];
        if chunks[i] > 0 {
          files := files[path := files[path] + chunks[i]];
        }
        i := i + 1;
      }
      assert chunks[..|chunks|] == chunks;
    }
  }
}
