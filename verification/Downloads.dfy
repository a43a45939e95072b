/** The resumable download: a part file, the mark of the source it came from, and the
    finished file. A source's bytes are fixed; requests may fail, streams may break
    off, and the process may die at any point, in the middle of a write too. */
module Downloads {
  import opened Outcomes
  import Texts
  import opened WorkTree

  /** No white space stands at the ends of a source's address. */
  type Url = u: string | Texts.IsTrimmed(u)

  datatype Disk = Disk(part: Option<Bytes>, marker: Option<string>, dest: Option<Bytes>)

  ghost predicate Prefix(x: Bytes, whole: Bytes) {
    x <= whole
  }

  /** The marker names a source when its text, trimmed, is the source's address. */
  predicate Names(marker: Option<string>, url: Url) {
    marker.Some? && Texts.Trim(marker.value) == url
  }

  /** White space around the address in a marker does not matter. */
  lemma PaddedMarkerNames(before: string, url: Url, after: string)
    requires url != "" && forall c | c in before + after :: Texts.IsWhite(c)
    ensures Names(Some(before + url + after), url)
  {
    Texts.TrimPadded(before, url, after);
  }

  /** A part is a prefix of the source its marker names. */
  ghost predicate PartTrue(sources: set<Url>, bytes: Url -> Bytes, d: Disk) {
    forall u | u in sources && Names(d.marker, u) && d.part.Some? :: Prefix(d.part.value, bytes(u))
  }

  /** So it is, and the finished file is one source's whole content. */
  ghost predicate Sound(sources: set<Url>, bytes: Url -> Bytes, d: Disk) {
    PartTrue(sources, bytes, d) && (d.dest.Some? ==> exists u :: u in sources && d.dest.value == bytes(u))
  }

  /** Can the marker be read, and can the part be deleted? */
  datatype Luck = Luck(readable: bool, removable: bool)

  /** What the first step leaves of the part: a part of this source is kept, any other is
      deleted, provided the deletion works; its failure goes unnoticed. */
  function KeptPart(d: Disk, url: Url, luck: Luck): Option<Bytes> {
    if (luck.readable && Names(d.marker, url)) || !luck.removable then d.part else None
  }

  /** The part is one of this source, and the source reaches as far. */
  ghost predicate Resumable(bytes: Url -> Bytes, d: Disk, url: Url) {
    Names(d.marker, url) && d.part.Some? && |d.part.value| <= |bytes(url)|
  }

  /** What the part can hold while the answer streams in: resumed where it ended, or from scratch. */
  ghost predicate Streaming(bytes: Url -> Bytes, d: Disk, url: Url, part: Bytes) {
    || Prefix(part, bytes(url))
    || (Resumable(bytes, d, url) && d.part.value <= part
        && Prefix(part[|d.part.value|..], bytes(url)[|d.part.value|..]))
  }

  /** The finished file of a stream that ended. */
  ghost predicate Finished(bytes: Url -> Bytes, d: Disk, url: Url, dest: Bytes) {
    || dest == bytes(url)
    || (Resumable(bytes, d, url) && dest == d.part.value + bytes(url)[|d.part.value|..])
  }

  /** The marker after a write that reached its first `n` characters. */
  function Marked(d: Disk, url: Url, n: nat): Disk
    requires n <= |url|
  {
    d.(marker := Some(url[..n]))
  }

  /** The states one call can leave behind, wherever it stops. */
  ghost predicate Ends(bytes: Url -> Bytes, d: Disk, url: Url, luck: Luck, e: Disk) {
    var kept := d.(part := KeptPart(d, url, luck));
    || e == d || e == kept || e == kept.(marker := None)
    || (exists n: nat :: n <= |url| && e == Marked(kept, url, n))
    || (e.part.Some? && Streaming(bytes, d, url, e.part.value) && e == Disk(e.part, Some(url), d.dest))
    || (e.dest.Some? && Finished(bytes, d, url, e.dest.value)
        && (e == Disk(None, Some(url), e.dest) || e == Disk(None, None, e.dest)))
  }

  class Downloader {
    var part: Option<Bytes>
    var marker: Option<string>
    var dest: Option<Bytes>

    ghost function Now(): Disk
      reads this
    {
      Disk(part, marker, dest)
    }

    /** Downloads `url`, resuming the part that an earlier call to the same source left, provided its
        length can be `measured`. `asked` is the place the request asks to begin at, when the
        call gets so far. */
    method DownloadWithResume(bytes: Url -> Bytes, url: Url, luck: Luck, measured: bool)
      returns (r: Result<()>, asked: Option<nat>)
      modifies this
      ensures r.Ok? ==> asked.Some?
      ensures asked.Some? ==>
        var resumes := measured && luck.readable && Names(old(marker), url) && old(part).Some?;
        asked.value == if resumes then |old(part).value| else 0
      ensures Ends(bytes, old(Now()), url, luck, Now())
      ensures r.Ok? ==> dest.Some? && Finished(bytes, old(Now()), url, dest.value) && part.None?
      ensures r.Err? ==> r.Interrupted()
    {
      var sameSource := luck.readable && Names(marker, url);
      asked := None;
      var offset := 0;
      if part.Some? {
        if sameSource {
          offset := if measured then |part.value| else 0;
        } else if luck.removable {
          part := None;
        }
      }
      ghost var kept := Now();
      if * {
        return Err(Crash), asked;
      }
      if offset == 0 {
        if * {
          marker := None;
        }
      }
      if * {
        return Err(Crash), asked;
      }
      ghost var unmarked := marker;
      r := WriteMarker(url);
      if r.Err? {
        if marker != unmarked {
          ghost var n: nat :| n <= |url| && marker == Some(url[..n]);
          assert Now() == Marked(kept, url, n);
        }
        return;
      }
      assert url[..|url|] == url;
      assert Now() == Marked(kept, url, |url|);
      asked := Some(offset);
      // the request: refused, an error status, a partial answer (206) or a whole one
      if * {
        return Err(PortFailure), asked;
      }
      var partial := false;
      if 0 < offset <= |bytes(url)| {
        if * {
          partial := true;
        }
      }
      r := Fetch(bytes, url, offset, partial);
      if r.Err? {
        return;
      }
      // the part is complete; renaming it can still fail
      if * {
        return Err(PortFailure), asked;
      }
      dest, part := part, None;
      if * {
        marker := None;
      }
    }

    /** Writes the source marker; a write that fails leaves what was there, or its beginning. */
    method WriteMarker(url: Url) returns (r: Result<()>)
      modifies this`marker
      ensures r.Ok? ==> marker == Some(url)
      ensures r.Err? ==> r.Interrupted()
      ensures r.Err? ==> marker == old(marker) || exists n: nat :: n <= |url| && marker == Some(url[..n])
    {
      if * {
        return Err(PortFailure);
      }
      if * {
        var n :| 0 <= n <= |url|;
        marker := Some(url[..n]);
        if * {
          return Err(Crash);
        }
        return Err(PortFailure);
      }
      marker := Some(url);
      return Ok(());
    }

    /** Opens the part (truncating it unless the answer is partial) and copies the stream into it.
        When it cannot be opened, it stays as it was. */
    method Fetch(bytes: Url -> Bytes, url: Url, offset: nat, partial: bool) returns (r: Result<()>)
      requires partial ==> 0 < offset <= |bytes(url)| && part.Some? && |part.value| == offset
      modifies this`part
      ensures r.Ok? ==> part == Some(if partial then old(part).value + bytes(url)[offset..] else bytes(url))
      ensures r.Err? ==> r.Interrupted()
      ensures r.Err? && partial ==>
        part.Some? && old(part).value <= part.value && Prefix(part.value[offset..], bytes(url)[offset..])
      ensures r.Err? && !partial ==> part == old(part) || (part.Some? && Prefix(part.value, bytes(url)))
    {
      if * {
        return Err(PortFailure);
      }
      if !partial {
        part := Some([]);
      }
      var stream := if partial then bytes(url)[offset..] else bytes(url);
      ghost var base := part.value;
      var sent := 0;
      assert base + stream[..sent] == base && stream[..|stream|] == stream;
      while sent < |stream|
        invariant 0 <= sent <= |stream|
        invariant part == Some(base + stream[..sent])
      {
        var got :| 0 < got <= |stream| - sent;
        if * {
          return Err(PortFailure);
        }
        // a write can stop half way
        var wrote :| 0 <= wrote <= got;
        assert stream[..sent] + stream[sent..sent + wrote] == stream[..sent + wrote];
        part := Some(part.value + stream[sent..sent + wrote]);
        assert part.value == base + stream[..sent + wrote];
        if wrote < got {
          return Err(Crash);
        }
        sent := sent + got;
      }
      assert stream[..sent] == stream && (!partial ==> base + stream == stream);
      return Ok(());
    }
  }

  // ---------- soundness ----------

  /** Nothing is kept of the part, or the part is of this source and no beginning of the
      address, where writing the marker may break off, is another source's. */
  ghost predicate Safe(sources: set<Url>, d: Disk, url: Url, luck: Luck) {
    || KeptPart(d, url, luck) in {None, Some([])}
    || (Names(d.marker, url)
        && forall n: nat, u | n <= |url| && u in sources && Names(Some(url[..n]), u) :: u == url)
  }

  /** Wherever a call stops, a part is a prefix of the source its marker names, and a file that
      was finished is all of the source asked for. */
  ghost predicate NeverMixes(sources: set<Url>, bytes: Url -> Bytes, d: Disk, url: Url, luck: Luck) {
    forall e | Ends(bytes, d, url, luck, e) ::
      PartTrue(sources, bytes, e) && (e.dest == d.dest || e.dest == Some(bytes(url)))
  }

  lemma StreamingIsPrefix(sources: set<Url>, bytes: Url -> Bytes, d: Disk, url: Url, part: Bytes)
    requires PartTrue(sources, bytes, d) && url in sources && Streaming(bytes, d, url, part)
    ensures Prefix(part, bytes(url))
  {
    if Resumable(bytes, d, url) && d.part.value <= part {
      var n := |d.part.value|;
      assert Prefix(d.part.value, bytes(url));
      assert part == part[..n] + part[n..];
      assert bytes(url) == bytes(url)[..n] + bytes(url)[n..];
    }
  }

  lemma FinishedIsWhole(sources: set<Url>, bytes: Url -> Bytes, d: Disk, url: Url, dest: Bytes)
    requires PartTrue(sources, bytes, d) && url in sources && Finished(bytes, d, url, dest)
    ensures dest == bytes(url)
  {
    if Resumable(bytes, d, url) {
      assert Prefix(d.part.value, bytes(url));
      assert bytes(url) == bytes(url)[..|d.part.value|] + bytes(url)[|d.part.value|..];
    }
  }

  /** Half-written markers of a safe call mislead nobody. */
  lemma MarkedTrue(sources: set<Url>, bytes: Url -> Bytes, d: Disk, url: Url, luck: Luck, n: nat)
    requires PartTrue(sources, bytes, d) && url in sources && Safe(sources, d, url, luck) && n <= |url|
    ensures PartTrue(sources, bytes, Marked(d.(part := KeptPart(d, url, luck)), url, n))
  {
  }

  lemma SafeNeverMixes(sources: set<Url>, bytes: Url -> Bytes, d: Disk, url: Url, luck: Luck)
    requires PartTrue(sources, bytes, d) && url in sources && Safe(sources, d, url, luck)
    ensures NeverMixes(sources, bytes, d, url, luck)
  {
    hide Safe, Finished, Streaming;
    var kept := d.(part := KeptPart(d, url, luck));
    forall e | Ends(bytes, d, url, luck, e)
      ensures PartTrue(sources, bytes, e) && (e.dest == d.dest || e.dest == Some(bytes(url)))
    {
      if e.dest.Some? && Finished(bytes, d, url, e.dest.value) {
        FinishedIsWhole(sources, bytes, d, url, e.dest.value);
      }
      if e.part.Some? && Streaming(bytes, d, url, e.part.value) {
        StreamingIsPrefix(sources, bytes, d, url, e.part.value);
      }
      if n: nat :| n <= |url| && e == Marked(kept, url, n) {
        MarkedTrue(sources, bytes, d, url, luck, n);
      }
    }
  }

  /** The contents under which an unsafe call mixes: the source that the marker names holds
      exactly the part, and every other source is empty. */
  function Trap(d: Disk): Url -> Bytes {
    (u: Url) => if Names(d.marker, u) && d.part.Some? then d.part.value else []
  }

  lemma UnsafeMixes(sources: set<Url>, d: Disk, url: Url, luck: Luck)
    requires url in sources && !Safe(sources, d, url, luck)
    ensures PartTrue(sources, Trap(d), d) && !NeverMixes(sources, Trap(d), d, url, luck)
  {
    var kept := d.(part := KeptPart(d, url, luck));
    var n: nat, u: Url := |url|, url;
    assert url[..|url|] == url;
    if Names(d.marker, url) {
      n, u :| n <= |url| && u in sources && Names(Some(url[..n]), u) && u != url;
    }
    var bad := Marked(kept, url, n);
    assert Names(bad.marker, u) && Trap(d)(u) == [] && !Prefix(bad.part.value, []);
    assert Ends(Trap(d), d, url, luck, bad) && !PartTrue(sources, Trap(d), bad);
  }

  /** Whatever the sources hold, a call that starts from a true part never mixes two of them, if
      and only if it is safe: that can be read off the disk and the addresses before the call. */
  lemma CallNeverMixesIffSafe(sources: set<Url>, d: Disk, url: Url, luck: Luck)
    requires url in sources
    ensures (forall bytes: Url -> Bytes | PartTrue(sources, bytes, d) :: NeverMixes(sources, bytes, d, url, luck))
      <==> Safe(sources, d, url, luck)
  {
    if Safe(sources, d, url, luck) {
      forall bytes: Url -> Bytes | PartTrue(sources, bytes, d)
        ensures NeverMixes(sources, bytes, d, url, luck)
      {
        SafeNeverMixes(sources, bytes, d, url, luck);
      }
    } else {
      UnsafeMixes(sources, d, url, luck);
    }
  }

  lemma EndsSound(sources: set<Url>, bytes: Url -> Bytes, d: Disk, url: Url, luck: Luck, e: Disk)
    requires Sound(sources, bytes, d) && url in sources
    requires Safe(sources, d, url, luck) && Ends(bytes, d, url, luck, e)
    ensures Sound(sources, bytes, e)
    ensures e.dest != d.dest ==> e.dest == Some(bytes(url))
  {
    hide Ends, Safe, PartTrue;
    SafeNeverMixes(sources, bytes, d, url, luck);
  }

  /** No source's address, cut off anywhere, is another source's. */
  ghost predicate PrefixFree(sources: set<Url>) {
    forall u, n: nat, v | u in sources && n <= |u| && v in sources && Names(Some(u[..n]), v) :: u == v
  }

  /** When stale parts can be deleted and no address is the beginning of another, every call is safe. */
  lemma UsuallySafe(sources: set<Url>, d: Disk, url: Url, luck: Luck)
    requires url in sources && luck.removable && PrefixFree(sources)
    ensures Safe(sources, d, url, luck)
  {
  }

  // ---------- whole runs ----------

  datatype Attempt = Attempt(url: Url, luck: Luck)

  ghost predicate IsRun(sources: set<Url>, bytes: Url -> Bytes, states: seq<Disk>, attempts: seq<Attempt>) {
    && |states| == |attempts| + 1
    && Sound(sources, bytes, states[0])
    && forall i: nat | i < |attempts| :: AttemptAt(sources, bytes, states, attempts, i)
  }

  ghost predicate AttemptAt(sources: set<Url>, bytes: Url -> Bytes, states: seq<Disk>, attempts: seq<Attempt>, i: nat)
    requires i < |attempts| && |states| == |attempts| + 1
  {
    attempts[i].url in sources && Ends(bytes, states[i], attempts[i].url, attempts[i].luck, states[i + 1])
  }

  /** Over any run of interrupted, crashed and repeated downloads of any sources in which each
      call is safe where it starts, no two sources are ever spliced: a marked part is a prefix
      of its source, and a finished file is all of the source just asked for. */
  lemma {:induction false} NeverSplices(sources: set<Url>, bytes: Url -> Bytes, states: seq<Disk>,
                                        attempts: seq<Attempt>, i: nat)
    requires IsRun(sources, bytes, states, attempts) && i < |states|
    requires forall j | 0 <= j < |attempts| :: Safe(sources, states[j], attempts[j].url, attempts[j].luck)
    ensures Sound(sources, bytes, states[i])
    ensures i > 0 && states[i].dest != states[i - 1].dest ==> states[i].dest == Some(bytes(attempts[i - 1].url))
  {
    if i > 0 {
      NeverSplices(sources, bytes, states, attempts, i - 1);
      assert AttemptAt(sources, bytes, states, attempts, i - 1);
      EndsSound(sources, bytes, states[i - 1], attempts[i - 1].url, attempts[i - 1].luck, states[i]);
    }
  }

  /** So it is in every run in which stale parts can be deleted, of sources none of whose
      addresses is the beginning of another. */
  lemma {:induction false} UsuallyNeverSplices(sources: set<Url>, bytes: Url -> Bytes, states: seq<Disk>,
                                               attempts: seq<Attempt>, i: nat)
    requires IsRun(sources, bytes, states, attempts) && i < |states|
    requires PrefixFree(sources) && forall j | 0 <= j < |attempts| :: attempts[j].luck.removable
    ensures Sound(sources, bytes, states[i])
    ensures i > 0 && states[i].dest != states[i - 1].dest ==> states[i].dest == Some(bytes(attempts[i - 1].url))
  {
    hide Sound, PrefixFree, Safe, Ends;
    if i > 0 {
      UsuallyNeverSplices(sources, bytes, states, attempts, i - 1);
      assert AttemptAt(sources, bytes, states, attempts, i - 1);
      UsuallySafe(sources, states[i - 1], attempts[i - 1].url, attempts[i - 1].luck);
      EndsSound(sources, bytes, states[i - 1], attempts[i - 1].url, attempts[i - 1].luck, states[i]);
    }
  }

  /** When the stale part cannot be deleted, two attempts can finish a file that is neither
      source: the first marks the old part as its own, the second resumes it. */
  lemma UndeletablePartSplices(bytes: Url -> Bytes, a: Url, b: Url)
    requires a != b && bytes(a) == [1, 1] && bytes(b) == [2, 2]
    ensures var d0 := Disk(Some([1]), Some(a), None);
      var d1 := Disk(Some([1]), Some(b), None);
      var d2 := Disk(None, None, Some([1, 2]));
      && Sound({a, b}, bytes, d0)
      && Ends(bytes, d0, b, Luck(true, false), d1)
      && Ends(bytes, d1, b, Luck(true, false), d2)
  {
    var d1 := Disk(Some([1]), Some(b), None);
    assert b[..|b|] == b;
    assert Marked(Disk(Some([1]), Some(a), None), b, |b|) == d1;
    assert [1] + bytes(b)[1..] == [1, 2];
    assert Finished(bytes, d1, b, [1, 2]);
  }

  /** When one address is the beginning of another, a crash while the marker is written can hand
      the longer one's part to the shorter one. */
  lemma TornMarkerSplices(bytes: Url -> Bytes, a: Url, b: Url)
    requires a < b && bytes(a) == [1, 1] && bytes(b) == [2, 2]
    ensures var d0 := Disk(Some([2]), Some(b), None);
      var d1 := Disk(Some([2]), Some(a), None);
      var d2 := Disk(None, None, Some([2, 1]));
      && Sound({a, b}, bytes, d0)
      && Ends(bytes, d0, b, Luck(true, true), d1)
      && Ends(bytes, d1, a, Luck(true, true), d2)
  {
    var d0, d1 := Disk(Some([2]), Some(b), None), Disk(Some([2]), Some(a), None);
    assert b[..|a|] == a;
    assert Marked(d0, b, |a|) == d1;
    assert [2] + bytes(a)[1..] == [2, 1];
    assert Finished(bytes, d1, a, [2, 1]);
  }
}
