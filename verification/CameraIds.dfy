/** The camera id both stores cut out of a stream URL. */
module CameraIds {
  import opened Strings

  /** One decoded element of a CAMERA packet, which both stores read. */
  datatype CameraItem = CameraItem(ip: string, sourceUrl: string, kind: string, isOnline: bool)

  /** What stands between the first slash at or after `from` and the next one. */
  function Segment(url: string, from: nat): Option<string> {
    match Find(url, "/", from)
    case None => None
    case Some(slashPos) =>
      if slashPos + 1 >= |url| then None else
      match Find(url, "/", slashPos + 1)
      case None => None
      case Some(nextSlash) => Some(url[slashPos + 1..nextSlash])
  }

  /** The path segment behind the first occurrence of `ip`, if there is one. */
  function StreamNumber(ip: string, url: string): Option<string> {
    if url == "" then None else
    match Find(url, ip, 0)
    case None => None
    case Some(pos) => Segment(url, pos + |ip|)
  }

  /** The camera store's copy: no fallback for an empty ip, whose cameras it then drops. */
  function CameraStoreId(ip: string, url: string): string {
    match StreamNumber(ip, url)
    case Some(n) => ip + "/" + n
    case None => if ip != "" then ip + "/0" else ""
  }

  /** The device store's copy, which is only reached with a non-empty ip. */
  function DeviceStoreId(ip: string, url: string): string
    requires ip != ""
  {
    match StreamNumber(ip, url)
    case Some(n) => ip + "/" + n
    case None => ip + "/0"
  }

  ghost predicate FirstAt(url: string, ip: string, p: nat) {
    Matches(url, ip, p) && forall i :: 0 <= i < p ==> !Matches(url, ip, i)
  }

  /** The URL read as text: `pre` up to the first occurrence of the ip, then the ip, then `mid` without a slash,
      then the stream number between two slashes. */
  ghost predicate Reads(url: string, ip: string, n: string, pre: string, mid: string, rest: string) {
    && url == pre + ip + (mid + "/" + n + "/" + rest)
    && FirstAt(url, ip, |pre|)
    && '/' !in mid && '/' !in n
  }

  lemma SlashAt(s: string, i: int)
    requires 0 <= i < |s|
    ensures Matches(s, "/", i) <==> s[i] == '/'
  {
    assert s[i..i + 1] == [s[i]];
  }

  /** A search for a slash finds the end of a slash-free stretch. */
  lemma FindSlash(s: string, from: nat, to: nat)
    requires from <= to < |s| && s[to] == '/' && forall i :: from <= i < to ==> s[i] != '/'
    ensures Find(s, "/", from) == Some(to)
  {
    SlashAt(s, to);
    forall i | from <= i < to ensures !Matches(s, "/", i) {
      SlashAt(s, i);
    }
  }

  lemma FoundSlash(s: string, from: nat, to: nat)
    requires Find(s, "/", from) == Some(to)
    ensures from <= to < |s| && s[to] == '/' && forall i :: from <= i < to ==> s[i] != '/'
  {
    SlashAt(s, to);
    forall i | from <= i < to ensures s[i] != '/' {
      SlashAt(s, i);
    }
  }

  predicate SlashFree(s: string, from: nat, to: nat) {
    from <= to <= |s| && forall i :: from <= i < to ==> s[i] != '/'
  }

  /** The two slashes of a segment, by position. */
  ghost predicate SegmentAt(url: string, from: nat, n: string, slash: nat, next: nat) {
    && from <= slash < next < |url|
    && url[slash] == '/' && url[next] == '/'
    && SlashFree(url, from, slash) && SlashFree(url, slash + 1, next)
    && url[slash + 1..next] == n
  }

  lemma SegmentFinds(url: string, from: nat, n: string, slash: nat, next: nat)
    requires SegmentAt(url, from, n, slash, next)
    ensures Segment(url, from) == Some(n)
  {
    FindSlash(url, from, slash);
    FindSlash(url, slash + 1, next);
  }

  lemma SegmentFound(url: string, from: nat) returns (slash: nat, next: nat)
    requires Segment(url, from).Some?
    ensures SegmentAt(url, from, Segment(url, from).value, slash, next)
  {
    slash := Find(url, "/", from).value;
    next := Find(url, "/", slash + 1).value;
    FoundSlash(url, from, slash);
    FoundSlash(url, slash + 1, next);
  }

  /** The same as text. */
  ghost predicate SegmentReads(url: string, from: nat, n: string, mid: string, rest: string) {
    from <= |url| && url[from..] == mid + "/" + n + "/" + rest && '/' !in mid && '/' !in n
  }

  lemma SegmentTextAt(url: string, from: nat, n: string, mid: string, rest: string)
    requires SegmentReads(url, from, n, mid, rest)
    ensures SegmentAt(url, from, n, from + |mid|, from + |mid| + 1 + |n|)
  {
    var tail := url[from..];
    var slash := |mid|;
    var next := slash + 1 + |n|;
    assert tail == mid + "/" + n + "/" + rest;
    assert forall i :: 0 <= i < |tail| ==> url[from + i] == tail[i];
    assert forall i :: 0 <= i < slash ==> tail[i] == mid[i];
    assert forall i :: 0 <= i < |n| ==> tail[slash + 1 + i] == n[i];
    assert tail[slash + 1..next] == n;
    assert url[from + slash + 1..from + next] == tail[slash + 1..next];
    forall i | from + slash + 1 <= i < from + next ensures url[i] != '/' {
      assert url[i] == tail[slash + 1 + (i - from - slash - 1)];
    }
  }

  lemma SegmentAtText(url: string, from: nat, n: string, slash: nat, next: nat)
    requires SegmentAt(url, from, n, slash, next)
    ensures SegmentReads(url, from, n, url[from..slash], url[next + 1..])
  {
    assert url[from..] == url[from..slash] + "/" + n + "/" + url[next + 1..];
  }

  lemma FindsFirst(url: string, ip: string, p: nat)
    ensures Find(url, ip, 0) == Some(p) <==> FirstAt(url, ip, p)
  {
  }

  lemma CutAround(url: string, pre: string, ip: string, tail: string)
    requires url == pre + ip + tail
    ensures url[|pre| + |ip|..] == tail
  {
  }

  lemma SegmentGives(url: string, from: nat, n: string, mid: string, rest: string)
    requires SegmentReads(url, from, n, mid, rest)
    ensures Segment(url, from) == Some(n)
  {
    SegmentTextAt(url, from, n, mid, rest);
    SegmentFinds(url, from, n, from + |mid|, from + |mid| + 1 + |n|);
  }

  lemma NumberBehind(ip: string, url: string, p: nat, from: nat, n: string)
    requires Find(url, ip, 0) == Some(p) && from == p + |ip| && Segment(url, from) == Some(n)
    ensures StreamNumber(ip, url) == Some(n)
  {
  }

  lemma ReadsTail(url: string, ip: string, n: string, pre: string, mid: string, rest: string)
    requires url == pre + ip + (mid + "/" + n + "/" + rest) && '/' !in mid && '/' !in n
    ensures SegmentReads(url, |pre| + |ip|, n, mid, rest)
  {
    CutAround(url, pre, ip, mid + "/" + n + "/" + rest);
  }

  lemma ReadsSegment(url: string, ip: string, n: string, pre: string, mid: string, rest: string, from: nat)
    requires Reads(url, ip, n, pre, mid, rest) && from == |pre| + |ip|
    ensures Segment(url, from) == Some(n)
  {
    ReadsTail(url, ip, n, pre, mid, rest);
    SegmentGives(url, from, n, mid, rest);
  }

  lemma ReadsGives(url: string, ip: string, n: string, pre: string, mid: string, rest: string)
    requires Reads(url, ip, n, pre, mid, rest)
    ensures StreamNumber(ip, url) == Some(n)
  {
    var p: nat, from: nat := |pre|, |pre| + |ip|;
    assert Find(url, ip, 0) == Some(p) by {
      FindsFirst(url, ip, p);
    }
    ReadsSegment(url, ip, n, pre, mid, rest, from);
    NumberBehind(ip, url, p, from, n);
  }

  lemma JoinAround(url: string, ip: string, p: nat)
    requires Matches(url, ip, p)
    ensures url == url[..p] + ip + url[p + |ip|..]
  {
  }

  lemma ReadsFrom(url: string, ip: string, n: string, p: nat, mid: string, rest: string)
    requires Find(url, ip, 0) == Some(p) && SegmentReads(url, p + |ip|, n, mid, rest)
    ensures Reads(url, ip, n, url[..p], mid, rest)
  {
    FindsFirst(url, ip, p);
    JoinAround(url, ip, p);
  }

  lemma NumberFound(ip: string, url: string) returns (p: nat)
    requires StreamNumber(ip, url).Some?
    ensures Find(url, ip, 0) == Some(p) && Segment(url, p + |ip|) == StreamNumber(ip, url)
  {
    p := Find(url, ip, 0).value;
  }

  lemma SegmentText(url: string, from: nat, n: string) returns (mid: string, rest: string)
    requires Segment(url, from) == Some(n)
    ensures SegmentReads(url, from, n, mid, rest)
  {
    var slash, next := SegmentFound(url, from);
    SegmentAtText(url, from, n, slash, next);
    mid, rest := url[from..slash], url[next + 1..];
  }

  lemma GivesReads(url: string, ip: string) returns (pre: string, mid: string, rest: string)
    requires StreamNumber(ip, url).Some?
    ensures Reads(url, ip, StreamNumber(ip, url).value, pre, mid, rest)
  {
    var n := StreamNumber(ip, url).value;
    var p := NumberFound(ip, url);
    mid, rest := SegmentText(url, p + |ip|, n);
    pre := url[..p];
    ReadsFrom(url, ip, n, p, mid, rest);
  }

  /** The extractor answers a stream number exactly when the URL reads that way, and then that one. */
  lemma StreamNumberIff(ip: string, url: string, n: string)
    ensures StreamNumber(ip, url) == Some(n) <==> exists pre, mid, rest :: Reads(url, ip, n, pre, mid, rest)
  {
    if StreamNumber(ip, url) == Some(n) {
      var pre, mid, rest := GivesReads(url, ip);
    }
    if pre, mid, rest :| Reads(url, ip, n, pre, mid, rest) {
      ReadsGives(url, ip, n, pre, mid, rest);
    }
  }

  /** For every non-empty ip the two copies agree; the id is the ip, a slash and the stream number the URL
      reads as, or the ip and "/0" when it reads as none. */
  lemma StoresAgree(ip: string, url: string)
    requires ip != ""
    ensures CameraStoreId(ip, url) == DeviceStoreId(ip, url)
    ensures forall n, pre, mid, rest :: Reads(url, ip, n, pre, mid, rest) ==> DeviceStoreId(ip, url) == ip + "/" + n
    ensures (forall n, pre, mid, rest :: !Reads(url, ip, n, pre, mid, rest)) ==> DeviceStoreId(ip, url) == ip + "/0"
  {
    forall n, pre, mid, rest | Reads(url, ip, n, pre, mid, rest) ensures StreamNumber(ip, url) == Some(n) {
      ReadsGives(url, ip, n, pre, mid, rest);
    }
    if StreamNumber(ip, url).Some? {
      var pre, mid, rest := GivesReads(url, ip);
    }
  }
}
