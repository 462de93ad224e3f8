/** The ticket QR payload decoder of utils/qr_code.py.
    A ticket QR code carries the text `train|coach|seat|phone`. */
module QrCode {


  /** The dictionaries decode_qr_code can return. */
  datatype QrPayload =
    | Ticket(trainNumber: string, coach: string, seat: string, phone: string)
    | StandingZone(trainNumber: string, coach: string, zone: string, phone: string)
    | Unknown(data: string)
    | DecodeError

  const Separator: char := '|'

  /** Python's `s.count(c)` for a single character. */
  function CountChar(s: string, c: char): nat
  {
    if |s| == 0 then 0 else (if s[0] == c then 1 else 0) + CountChar(s[1..], c)
  }

  /** Python's `s.split(sep)` for a single-character separator. */
  function Split(s: string, sep: char): (parts: seq<string>)
    ensures |parts| == CountChar(s, sep) + 1
    ensures forall i :: 0 <= i < |parts| ==> sep !in parts[i]
  {
    if |s| == 0 then [""]
    else
      var rest := Split(s[1..], sep);
      if s[0] == sep then [""] + rest
      else [[s[0]] + rest[0]] + rest[1..]
  }

  /** Python's `sep.join(parts)`. */
  function Join(parts: seq<string>, sep: char): string
  {
    if |parts| == 0 then ""
    else if |parts| == 1 then parts[0]
    else parts[0] + [sep] + Join(parts[1..], sep)
  }

  /** The tuple unpacking `a, b, c, d = parts`, which raises unless there are exactly four parts. */
  function Unpack4(parts: seq<string>): (r: Option4)
    ensures r.Four? <==> |parts| == 4
  {
    if |parts| == 4 then Four(parts[0], parts[1], parts[2], parts[3]) else WrongArity
  }

  datatype Option4 = Four(a: string, b: string, c: string, d: string) | WrongArity

  /** decode_qr_code: three separators make a ticket; the standing-zone branch
      repeats the ticket guard and so is never taken; anything else is unknown. */
  function DecodeQr(data: string): (r: QrPayload)
    ensures CountChar(data, Separator) == 3 ==>
      r.Ticket? && Join([r.trainNumber, r.coach, r.seat, r.phone], Separator) == data
    ensures CountChar(data, Separator) == 3 ==>
      Separator !in r.trainNumber + r.coach + r.seat + r.phone
    ensures CountChar(data, Separator) != 3 ==> r == Unknown(data)
    ensures !r.StandingZone? && !r.DecodeError?
  {
    if CountChar(data, Separator) == 3 then
      var parts := Split(data, Separator);
      JoinSplit(data, Separator);
      match Unpack4(parts)
      case Four(train, coach, seat, phone) =>
        assert parts == [train, coach, seat, phone];
        Ticket(train, coach, seat, phone)
      case WrongArity => DecodeError
    else if CountChar(data, Separator) == 3 then
      match Unpack4(Split(data, Separator))
      case Four(train, coach, zone, phone) => StandingZone(train, coach, zone, phone)
      case WrongArity => DecodeError
    else
      Unknown(data)
  }

  /** The ticket text built when a ticket is issued. */
  function EncodeTicket(trainNumber: string, coach: string, seat: string, phone: string): string
  {
    trainNumber + "|" + coach + "|" + seat + "|" + phone
  }

  lemma {:induction false} CountCharAppend(a: string, b: string, c: char)
    ensures CountChar(a + b, c) == CountChar(a, c) + CountChar(b, c)
  {
    if |a| > 0 {
      assert (a + b)[1..] == a[1..] + b;
      CountCharAppend(a[1..], b, c);
    } else {
      assert a + b == b;
    }
  }

  lemma {:induction false} CountCharAbsent(s: string, c: char)
    requires c !in s
    ensures CountChar(s, c) == 0
  {
    if |s| > 0 {
      assert c !in s[1..];
      CountCharAbsent(s[1..], c);
    }
  }

  /** An encoded ticket passes the `count('|') == 3` test of the decoder exactly
      when none of its four fields contains '|'. */
  lemma EncodeTicketSeparators(trainNumber: string, coach: string, seat: string, phone: string)
    ensures CountChar(EncodeTicket(trainNumber, coach, seat, phone), '|') ==
      3 + CountChar(trainNumber, '|') + CountChar(coach, '|') + CountChar(seat, '|') + CountChar(phone, '|')
    ensures CountChar(EncodeTicket(trainNumber, coach, seat, phone), '|') == 3
      <==> '|' !in trainNumber && '|' !in coach && '|' !in seat && '|' !in phone
  {
    var bar := "|";
    assert CountChar(bar, '|') == 1;
    CountCharAppend(trainNumber, bar, '|');
    CountCharAppend(trainNumber + bar, coach, '|');
    CountCharAppend(trainNumber + bar + coach, bar, '|');
    CountCharAppend(trainNumber + bar + coach + bar, seat, '|');
    CountCharAppend(trainNumber + bar + coach + bar + seat, bar, '|');
    CountCharAppend(trainNumber + bar + coach + bar + seat + bar, phone, '|');
    CountCharPresent(trainNumber, '|');
    CountCharPresent(coach, '|');
    CountCharPresent(seat, '|');
    CountCharPresent(phone, '|');
  }

  /** A string holds the character exactly when its count is positive. */
  lemma {:induction false} CountCharPresent(s: string, c: char)
    ensures c in s <==> CountChar(s, c) > 0
  {
    if c !in s {
      CountCharAbsent(s, c);
    } else if s[0] != c {
      assert c in s[1..];
      CountCharPresent(s[1..], c);
    }
  }

  /** Splitting and re-joining a string gives the string back. */
  lemma {:induction false} JoinSplit(s: string, sep: char)
    ensures Join(Split(s, sep), sep) == s
  {
    if |s| > 0 {
      var rest := Split(s[1..], sep);
      JoinSplit(s[1..], sep);
      if s[0] == sep {
        assert Split(s, sep) == [""] + rest;
        assert ([""] + rest)[1..] == rest;
      } else {
        var parts := [[s[0]] + rest[0]] + rest[1..];
        assert Split(s, sep) == parts;
        if |rest| == 1 {
          assert Join(parts, sep) == [s[0]] + rest[0];
        } else {
          assert parts[1..] == rest[1..];
          assert Join(rest, sep) == rest[0] + [sep] + Join(rest[1..], sep);
        }
        assert s == [s[0]] + s[1..];
      }
    }
  }

  /** Splitting `a + sep + b` where `a` holds no separator yields `a` followed by the parts of `b`. */
  lemma {:induction false} SplitAfterField(a: string, b: string, sep: char)
    requires sep !in a
    ensures Split(a + [sep] + b, sep) == [a] + Split(b, sep)
  {
    if |a| == 0 {
      assert a + [sep] + b == [sep] + b;
      assert ([sep] + b)[1..] == b;
    } else {
      assert (a + [sep] + b)[1..] == a[1..] + [sep] + b;
      assert sep !in a[1..];
      SplitAfterField(a[1..], b, sep);
      assert [a[0]] + a[1..] == a;
    }
  }

  lemma {:induction false} SplitNoSeparator(s: string, sep: char)
    requires sep !in s
    ensures Split(s, sep) == [s]
  {
    if |s| > 0 {
      assert sep !in s[1..];
      SplitNoSeparator(s[1..], sep);
      assert [s[0]] + s[1..] == s;
    }
  }

  /** A ticket text built from four fields free of `|` decodes back to those four fields. */
  lemma TicketRoundTrip(trainNumber: string, coach: string, seat: string, phone: string)
    requires '|' !in trainNumber && '|' !in coach && '|' !in seat && '|' !in phone
    ensures DecodeQr(EncodeTicket(trainNumber, coach, seat, phone)) == Ticket(trainNumber, coach, seat, phone)
  {
    var s := EncodeTicket(trainNumber, coach, seat, phone);
    assert s == trainNumber + ['|'] + (coach + ['|'] + (seat + ['|'] + phone));
    SplitNoSeparator(phone, '|');
    SplitAfterField(seat, phone, '|');
    SplitAfterField(coach, seat + ['|'] + phone, '|');
    SplitAfterField(trainNumber, coach + ['|'] + (seat + ['|'] + phone), '|');
    assert Split(s, '|') == [trainNumber, coach, seat, phone];
  }
}
