/**
 * Ping identifiers: the token, the membership epoch and a fresh UUID, separated
 * by slashes (registry/health_tracker.go:487-513). Whether a text is a UUID is
 * left to the library and a parameter here.
 */
module PingIds {
  import opened Basics
  import opened StreamIds

  predicate IsHex(c: char) {
    IsDigit(c) || 'a' <= c <= 'f'
  }

  /** A registration token is a lower-case hexadecimal SHA-256. */
  predicate IsToken(s: string) {
    |s| == 64 && forall i :: 0 <= i < |s| ==> IsHex(s[i])
  }

  function PingId(token: string, epoch: nat, uuid: string): string {
    token + "/" + Format(epoch) + "/" + uuid
  }

  /** The text before the first slash, if there is one, and the text behind it. */
  function Cut(s: string): Option<(string, string)> {
    if s == "" then None
    else if s[0] == '/' then Some(("", s[1..]))
    else
      match Cut(s[1..])
      case None => None
      case Some((before, behind)) => Some(([s[0]] + before, behind))
  }

  /** The token and epoch a pong answers, as the registry reads them from the ping's text. */
  function ParsePingId(s: string, isUuid: string -> bool): Option<(string, nat)> {
    match Cut(s)
    case None => None
    case Some((token, rest)) =>
      match Cut(rest)
      case None => None
      case Some((epoch, uuid)) =>
        if IsToken(token) && IsDigits(epoch) && 0 < Value(epoch) < TWO_64 && isUuid(uuid)
        then Some((token, Value(epoch)))
        else None
  }

  predicate NoSlash(s: string) {
    forall i :: 0 <= i < |s| ==> s[i] != '/'
  }

  /** Cutting finds the only reading with no slash in the first part. */
  lemma {:induction false} CutIsTheOnlyReading(s: string, before: string, behind: string)
    ensures Cut(s) == Some((before, behind)) <==> NoSlash(before) && s == before + "/" + behind
  {
    if s != "" {
      if s[0] == '/' {
        assert s == "" + "/" + s[1..];
        if before != "" && s == before + "/" + behind {
          assert before[0] == s[0];
        }
        if before == "" && s == before + "/" + behind {
          assert s[1..] == behind;
        }
      } else if before == "" {
        assert (before + "/" + behind)[0] == '/';
      } else {
        var tail := before[1..];
        CutIsTheOnlyReading(s[1..], tail, behind);
        assert before == [before[0]] + tail;
        if NoSlash(before) && s == before + "/" + behind {
          assert s[0] == before[0] && s[1..] == tail + "/" + behind;
        }
        if Cut(s) == Some((before, behind)) {
          assert s == [s[0]] + s[1..] && before[0] == s[0];
          assert s == before + "/" + behind;
          assert NoSlash(before) by {
            forall i | 0 <= i < |before| ensures before[i] != '/' {
              assert i > 0 ==> before[i] == tail[i - 1];
            }
          }
        }
      }
    }
  }

  /** A pong is read for this token and epoch exactly when its ping's text has that shape. */
  lemma ParseIsTheOnlyReading(s: string, isUuid: string -> bool, token: string, epoch: nat)
    ensures ParsePingId(s, isUuid) == Some((token, epoch)) <==>
            IsToken(token) && 0 < epoch < TWO_64 &&
            exists digits, uuid :: IsDigits(digits) && Value(digits) == epoch && isUuid(uuid) && s == Text(token, digits, uuid)
  {
    if ParsePingId(s, isUuid) == Some((token, epoch)) {
      var (first, rest) := Cut(s).value;
      var (digits, uuid) := Cut(rest).value;
      CutIsTheOnlyReading(s, first, rest);
      CutIsTheOnlyReading(rest, digits, uuid);
      assert s == Text(token, digits, uuid);
    }
    if IsToken(token) && 0 < epoch < TWO_64 {
      if digits, uuid :| IsDigits(digits) && Value(digits) == epoch && isUuid(uuid) && s == Text(token, digits, uuid) {
        ShapeParses(token, digits, uuid);
      }
    }
  }

  function Text(token: string, digits: string, uuid: string): string {
    token + "/" + digits + "/" + uuid
  }

  lemma ShapeParses(token: string, digits: string, uuid: string)
    requires IsToken(token) && IsDigits(digits)
    ensures Cut(Text(token, digits, uuid)) == Some((token, digits + "/" + uuid))
    ensures Cut(digits + "/" + uuid) == Some((digits, uuid))
  {
    assert Text(token, digits, uuid) == token + "/" + (digits + "/" + uuid);
    CutIsTheOnlyReading(Text(token, digits, uuid), token, digits + "/" + uuid);
    CutIsTheOnlyReading(digits + "/" + uuid, digits, uuid);
  }

  /** What the registry puts into a ping is what it reads back from the pong. */
  lemma PingIdRoundTrips(token: string, epoch: nat, uuid: string, isUuid: string -> bool)
    requires IsToken(token) && 0 < epoch < TWO_64 && isUuid(uuid)
    ensures ParsePingId(PingId(token, epoch, uuid), isUuid) == Some((token, epoch))
  {
    assert PingId(token, epoch, uuid) == Text(token, Format(epoch), uuid);
    ParseIsTheOnlyReading(PingId(token, epoch, uuid), isUuid, token, epoch);
  }

  /** One ping identifies one token and epoch: a late pong is never read for another. */
  lemma PingIdIsUnique(token: string, epoch: nat, uuid: string, other: string, later: nat, second: string)
    requires IsToken(token) && 0 < epoch < TWO_64 && IsToken(other) && 0 < later < TWO_64
    requires PingId(token, epoch, uuid) == PingId(other, later, second)
    ensures token == other && epoch == later && uuid == second
  {
    ShapeParses(token, Format(epoch), uuid);
    ShapeParses(other, Format(later), second);
  }
}
