/**
 * The logic of abitur/views.py: the two checkbox updates on an applicant, the fingerprint of
 * the current source links kept in the cache, and the alert that compares it with a fresh one.
 */
module Views {
  import opened Wrappers
  import opened Text
  import opened Utils
  import opened Models
  import opened Parsers

  // ----------------------------------------------------------- update_student

  /** `AjaxWinnerView.update_student`: flips the winner mark and nothing else. */
  method UpdateWinner(student: Student)
    modifies student`isWinner
    ensures student.isWinner == !old(student.isWinner)
  {
    if student.isWinner {
      student.isWinner := false;
    } else {
      student.isWinner := true;
    }
  }

  /** Two clicks on the winner box leave the mark as it was. */
  method UpdateWinnerTwice(student: Student)
    modifies student`isWinner
    ensures student.isWinner == old(student.isWinner)
  {
    UpdateWinner(student);
    UpdateWinner(student);
  }

  /**
   * `AjaxCheckedView.update_student`: the checked mark is cleared exactly when it was set and
   * the request's tag is "i"; in every other case it is set. Nothing else changes.
   */
  method UpdateChecked(student: Student, tag: Option<string>)
    modifies student`isChecked
    ensures !student.isChecked <==> old(student.isChecked) && tag == Some("i")
  {
    if student.isChecked && tag == Some("i") {
      student.isChecked := false;
    } else {
      student.isChecked := true;
    }
  }

  /** With any tag but "i" the checked update only ever sets the mark, so repeating it changes nothing. */
  method UpdateCheckedTwice(student: Student, tag: Option<string>)
    requires tag != Some("i")
    modifies student`isChecked
    ensures student.isChecked
  {
    UpdateChecked(student, tag);
    assert student.isChecked;
    UpdateChecked(student, tag);
  }

  // ------------------------------------------------------------------ checksums

  /** `''.join([make_checksum(link) for link in links])` */
  function JoinChecksums(links: seq<string>): (r: string)
    ensures r == "" <==> links == []
    ensures forall i :: 0 <= i < |r| ==> IsDigit(r[i])
    ensures |r| >= |links|
  {
    if links == [] then "" else MakeChecksum(links[0]) + JoinChecksums(links[1..])
  }

  /** The fingerprint of a run of links is the fingerprints of its parts one after the other. */
  lemma {:induction false} JoinChecksumsAppend(a: seq<string>, b: seq<string>)
    ensures JoinChecksums(a + b) == JoinChecksums(a) + JoinChecksums(b)
  {
    if a == [] {
      assert a + b == b;
    } else {
      assert (a + b)[0] == a[0] && (a + b)[1..] == a[1..] + b;
      JoinChecksumsAppend(a[1..], b);
    }
  }

  /** The cache entry under the key 'checksum', which holds nothing until an update sets it. */
  class Cache {
    var checksum: Option<string>

    constructor ()
      ensures checksum == None
    {
      checksum := None;
    }
  }

  /** The links the parsers found, in the parsers' order. */
  function SourceUrls(parsers: seq<Parser>): seq<string>
    reads parsers
  {
    seq(|parsers|, i reads parsers requires 0 <= i < |parsers| => parsers[i].sourceUrl)
  }

  /** `UpdateView.update_checksum(parsers)`: caches the fingerprint of the parsers' links, in order. */
  method UpdateChecksum(cache: Cache, parsers: seq<Parser>)
    modifies cache
    ensures cache.checksum == Some(JoinChecksums(SourceUrls(parsers)))
  {
    var links := SourceUrls(parsers);
    cache.checksum := Some(JoinChecksums(links));
  }

  /**
   * `AbiturView.total_checksum()`, given the links the crawler fetched, or `None` when
   * fetching raised ClientConnectionError: no fingerprint then; otherwise a text of digits,
   * at least one per link, that is empty exactly when there are no links.
   */
  function TotalChecksum(sources: Option<seq<string>>): (r: Option<string>)
    ensures r.None? <==> sources.None?
    ensures r.Some? ==> (r.value == "" <==> sources.value == []) && |r.value| >= |sources.value|
    ensures r.Some? ==> forall i :: 0 <= i < |r.value| ==> IsDigit(r.value[i])
  {
    match sources
    case None => None
    case Some(links) => Some(JoinChecksums(links))
  }

  /** The text and CSS class of the alert the page shows. */
  datatype Alert = Alert(text: string, cssClass: string)

  const OkAlert := Alert("Обновление не требуется", "alert-success")
  const WarningAlert := Alert("Пора обновить", "alert-danger")
  const ErrorAlert := Alert("Не удалось проверить обновления", "alert-danger")

  /**
   * `AbiturView.check_sources()` with the fresh fingerprint and the cached one: the error
   * alert when there is no fresh one, the warning when a non-empty cached one differs, the
   * all-clear when they agree, and no alert at all when nothing (or "") is cached.
   */
  function CheckSources(checksum: Option<string>, cached: Option<string>): (r: Option<Alert>)
    ensures r == Some(ErrorAlert) <==> checksum.None?
    ensures r == Some(WarningAlert) <==> checksum.Some? && cached.Some? && cached.value != "" && cached != checksum
    ensures r == Some(OkAlert) <==> checksum.Some? && cached == checksum && cached.value != ""
    ensures r.None? <==> checksum.Some? && (cached.None? || cached.value == "")
  {
    match checksum
    case None => Some(ErrorAlert)
    case Some(latest) =>
      match cached
      case Some(c) =>
        if c != "" then (if c != latest then Some(WarningAlert) else Some(OkAlert)) else None
      case None => None
  }

  /**
   * Right after an update, checking the same links gives the all-clear, unless there were
   * no links, whose empty fingerprint counts as nothing cached.
   */
  lemma UpToDateAfterUpdate(links: seq<string>)
    ensures CheckSources(TotalChecksum(Some(links)), Some(JoinChecksums(links)))
         == if links == [] then None else Some(OkAlert)
  {
  }

  /** A link whose fingerprint changed while the other links stayed makes the page ask for an update. */
  lemma ChangedLinkWarns(before: seq<string>, previous: string, updated: string, after: seq<string>)
    requires MakeChecksum(previous) != MakeChecksum(updated)
    ensures CheckSources(TotalChecksum(Some(before + [updated] + after)), Some(JoinChecksums(before + [previous] + after)))
         == Some(WarningAlert)
  {
    var p, s := JoinChecksums(before), JoinChecksums(after);
    var a, b := MakeChecksum(previous), MakeChecksum(updated);
    var cached := JoinChecksums(before + [previous] + after);
    var latest := JoinChecksums(before + [updated] + after);
    assert cached != latest by {
      JoinOfMiddle(before, previous, after);
      JoinOfMiddle(before, updated, after);
      if |a| == |b| {
        DifferentMiddles(p, a, b, s);
      } else {
        assert |p + a + s| != |p + b + s|;
      }
    }
    assert cached != "" by {
      assert TotalChecksum(Some(before + [previous] + after)) == Some(cached);
    }
    assert TotalChecksum(Some(before + [updated] + after)) == Some(latest);
  }

  lemma JoinOfMiddle(before: seq<string>, link: string, after: seq<string>)
    ensures JoinChecksums(before + [link] + after) == JoinChecksums(before) + MakeChecksum(link) + JoinChecksums(after)
  {
    var front := before + [link];
    JoinChecksumsAppend(front, after);
    JoinChecksumsAppend(before, [link]);
    assert JoinChecksums([link]) == MakeChecksum(link) by {
      assert [link][1..] == [];
    }
  }

  lemma DifferentMiddles(p: string, a: string, b: string, s: string)
    requires a != b && |a| == |b|
    ensures p + a + s != p + b + s
  {
    assert (p + a + s)[|p|..|p| + |a|] == a;
    assert (p + b + s)[|p|..|p| + |b|] == b;
  }
}
