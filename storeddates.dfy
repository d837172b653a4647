/** How transaction dates are stored and sorted. `create_transaction` stores a record
    as `model_dump(mode="json")`, which turns each datetime into ISO 8601 text, and
    `get_transactions` sorts on that text. MongoDB orders strings byte by byte, so the
    listing is newest first only while every stored date is written the same way. */
module StoredDates {

  /** A whole-second time of day on a calendar day (`day` is its `YYYY-MM-DD` text),
      written with the UTC offset the client sent, in minutes. */
  datatype WallClock = WallClock(day: string, hour: nat, minute: nat, second: nat, offsetMinutes: int)

  predicate WellFormed(w: WallClock) {
    |w.day| == 10 && w.hour < 24 && w.minute < 60 && w.second < 60 && -1440 < w.offsetMinutes < 1440
  }

  /** The instant `w` names, in seconds after midnight UTC of `w.day`. */
  function InstantInDay(w: WallClock): int {
    w.hour * 3600 + w.minute * 60 + w.second - w.offsetMinutes * 60
  }

  function DigitChar(d: nat): char
    requires d < 10
  {
    ('0' as int + d) as char
  }

  function TwoDigits(n: nat): (r: string)
    requires n < 100
    ensures |r| == 2
  {
    [DigitChar(n / 10), DigitChar(n % 10)]
  }

  /** `Z` for UTC, otherwise `+HH:MM` or `-HH:MM`. */
  function OffsetText(minutes: int): string
    requires -1440 < minutes < 1440
  {
    if minutes == 0 then "Z"
    else
      var m := if minutes < 0 then -minutes else minutes;
      [if minutes < 0 then '-' else '+'] + TwoDigits(m / 60) + ":" + TwoDigits(m % 60)
  }

  /** The text stored for a whole-second datetime: `YYYY-MM-DDTHH:MM:SS` and the offset. */
  function IsoText(w: WallClock): string
    requires WellFormed(w)
  {
    w.day + ("T" + (TwoDigits(w.hour) + (":" + (TwoDigits(w.minute) + (":" +
      (TwoDigits(w.second) + OffsetText(w.offsetMinutes)))))))
  }

  /** The order MongoDB sorts strings in: by code unit, a proper prefix first. */
  predicate TextBefore(a: string, b: string) {
    if a == [] then b != []
    else if b == [] then false
    else if a[0] != b[0] then a[0] < b[0]
    else TextBefore(a[1..], b[1..])
  }

  /** What `.sort("date", -1)` guarantees about the stored texts it returns. */
  ghost predicate TextDescending(s: seq<string>) {
    forall i, j :: 0 <= i < j < |s| ==> !TextBefore(s[i], s[j])
  }

  lemma {:induction false} TextBeforeAsymmetric(a: string, b: string)
    ensures !(TextBefore(a, b) && TextBefore(b, a))
    ensures !TextBefore(a, a)
    decreases |a|
  {
    if a != [] && b != [] && a[0] == b[0] {
      TextBeforeAsymmetric(a[1..], b[1..]);
    }
    if a != [] {
      TextBeforeAsymmetric(a[1..], a[1..]);
    }
  }

  /** Comparing two texts that start with blocks of the same length compares the blocks
      first and the rest only when the blocks are equal. */
  lemma {:induction false} TextBeforeBlocks(x1: string, r1: string, x2: string, r2: string)
    requires |x1| == |x2|
    ensures TextBefore(x1 + r1, x2 + r2) <==> TextBefore(x1, x2) || (x1 == x2 && TextBefore(r1, r2))
    decreases |x1|
  {
    if x1 == [] {
      assert x1 + r1 == r1 && x2 + r2 == r2;
    } else {
      assert (x1 + r1)[0] == x1[0] && (x2 + r2)[0] == x2[0];
      assert (x1 + r1)[1..] == x1[1..] + r1 && (x2 + r2)[1..] == x2[1..] + r2;
      TextBeforeAsymmetric(x1, x1);
      TextBeforeBlocks(x1[1..], r1, x2[1..], r2);
      if x1[0] == x2[0] {
        assert x1 == x2 <==> x1[1..] == x2[1..] by {
          assert x1 == [x1[0]] + x1[1..] && x2 == [x2[0]] + x2[1..];
        }
      }
    }
  }

  /** Two-digit fields compare as text exactly as they compare as numbers. */
  lemma TwoDigitsOrder(a: nat, b: nat)
    requires a < 100 && b < 100
    ensures TextBefore(TwoDigits(a), TwoDigits(b)) <==> a < b
    ensures TwoDigits(a) == TwoDigits(b) <==> a == b
  {
    var ta, tb := TwoDigits(a), TwoDigits(b);
    assert ta == [ta[0]] + [ta[1]] && tb == [tb[0]] + [tb[1]];
    TextBeforeBlocks([ta[0]], [ta[1]], [tb[0]], [tb[1]]);
    assert TextBefore([ta[0]], [tb[0]]) <==> a / 10 < b / 10 by {
      assert [ta[0]][1..] == [] && [tb[0]][1..] == [];
    }
    assert TextBefore([ta[1]], [tb[1]]) <==> a % 10 < b % 10 by {
      assert [ta[1]][1..] == [] && [tb[1]][1..] == [];
    }
    assert a == 10 * (a / 10) + a % 10 && b == 10 * (b / 10) + b % 10;
  }

  /** On one day, a time written with an earlier hour field sorts first as text,
      whatever the offsets. */
  lemma EarlierHourFieldFirst(a: WallClock, b: WallClock)
    requires WellFormed(a) && WellFormed(b)
    requires a.day == b.day && a.hour < b.hour
    ensures TextBefore(IsoText(a), IsoText(b))
  {
    var ra := ":" + (TwoDigits(a.minute) + (":" + (TwoDigits(a.second) + OffsetText(a.offsetMinutes))));
    var rb := ":" + (TwoDigits(b.minute) + (":" + (TwoDigits(b.second) + OffsetText(b.offsetMinutes))));
    TwoDigitsOrder(a.hour, b.hour);
    TextBeforeBlocks(TwoDigits(a.hour), ra, TwoDigits(b.hour), rb);
    TextBeforeBlocks("T", TwoDigits(a.hour) + ra, "T", TwoDigits(b.hour) + rb);
    TextBeforeBlocks(a.day, "T" + (TwoDigits(a.hour) + ra), b.day, "T" + (TwoDigits(b.hour) + rb));
    TextBeforeAsymmetric(a.day, a.day);
    TextBeforeAsymmetric("T", "T");
  }

  /** For two whole-second dates on the same day, both written in UTC, the text order
      is the time order. */
  lemma UtcTextOrderIsTimeOrder(a: WallClock, b: WallClock)
    requires WellFormed(a) && WellFormed(b)
    requires a.day == b.day && a.offsetMinutes == 0 && b.offsetMinutes == 0
    ensures TextBefore(IsoText(a), IsoText(b)) <==> InstantInDay(a) < InstantInDay(b)
  {
    var sa := TwoDigits(a.second) + OffsetText(0);
    var sb := TwoDigits(b.second) + OffsetText(0);
    TextBeforeAsymmetric("Z", "Z");
    TextBeforeBlocks(TwoDigits(a.second), "Z", TwoDigits(b.second), "Z");
    TwoDigitsOrder(a.second, b.second);
    var ma := TwoDigits(a.minute) + (":" + sa);
    var mb := TwoDigits(b.minute) + (":" + sb);
    TextBeforeBlocks(":", sa, ":", sb);
    TextBeforeBlocks(TwoDigits(a.minute), ":" + sa, TwoDigits(b.minute), ":" + sb);
    TwoDigitsOrder(a.minute, b.minute);
    var ha := TwoDigits(a.hour) + (":" + ma);
    var hb := TwoDigits(b.hour) + (":" + mb);
    TextBeforeBlocks(":", ma, ":", mb);
    TextBeforeBlocks(TwoDigits(a.hour), ":" + ma, TwoDigits(b.hour), ":" + mb);
    TwoDigitsOrder(a.hour, b.hour);
    TextBeforeBlocks("T", ha, "T", hb);
    TextBeforeBlocks(a.day, "T" + ha, b.day, "T" + hb);
    TextBeforeAsymmetric(a.day, a.day);
    TextBeforeAsymmetric(":", ":");
    TextBeforeAsymmetric("T", "T");
  }

  /** As written, an earlier time sent with a positive offset sorts as newer: on one
      day, 10:00 at +05:00 (05:00 UTC) is listed before 08:00 UTC, and no ordering of
      the stored texts puts the newer record first. */
  lemma OffsetDatesSortWrongly()
    ensures
      var early := WallClock("2024-01-01", 10, 0, 0, 300);
      var late := WallClock("2024-01-01", 8, 0, 0, 0);
      WellFormed(early) && WellFormed(late) &&
      InstantInDay(early) < InstantInDay(late) &&
      TextDescending([IsoText(early), IsoText(late)]) &&
      !TextDescending([IsoText(late), IsoText(early)])
  {
    var early := WallClock("2024-01-01", 10, 0, 0, 300);
    var late := WallClock("2024-01-01", 8, 0, 0, 0);
    EarlierHourFieldFirst(late, early);
    TextBeforeAsymmetric(IsoText(late), IsoText(early));
    var listed, newestFirst := [IsoText(early), IsoText(late)], [IsoText(late), IsoText(early)];
    assert TextBefore(newestFirst[0], newestFirst[1]);
    assert !TextBefore(listed[0], listed[1]);
  }
}
