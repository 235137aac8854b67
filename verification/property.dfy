// The summary of a train shown in the train table: TrainProperty.java.
module Property {
  import opened Common
  import opened Carriages

  /**
   * The parts of a segment name: the delimiter between its fields and the prefixes that say
   * what kind of segment it is (the SegmentIdentifier constants, whose values are not part of
   * this model).
   */
  datatype SegmentIdentifiers = SegmentIdentifiers(
    delimiter: char,
    depot: string,
    depotIn: string,
    loop: string,
    station: string,
    mainline: string)

  /** The fields of `s` between occurrences of `d`, empty ones included; there is always at least one. */
  function Fields(s: string, d: char): (r: seq<string>)
    ensures |r| >= 1
    decreases |s|
  {
    if s == [] then [[]]
    else
      var rest := Fields(s[1..], d);
      if s[0] == d then [[]] + rest else [[s[0]] + rest[0]] + rest[1..]
  }

  /** `r` without its trailing empty strings. */
  function DropTrailingEmpty(r: seq<string>): seq<string>
  {
    if r == [] || r[|r| - 1] != [] then r else DropTrailingEmpty(r[..|r| - 1])
  }

  /**
   * `String.split` on a single-character delimiter: the fields, without trailing empty ones,
   * except that the empty string splits into one empty field.
   */
  function Split(s: string, d: char): seq<string>
  {
    if s == [] then [[]] else DropTrailingEmpty(Fields(s, d))
  }

  /** A name with no delimiter in it is a single field. */
  lemma {:induction false} FieldsOfPlain(s: string, d: char)
    requires d !in s
    ensures Fields(s, d) == [s]
    decreases |s|
  {
    if s != [] {
      FieldsOfPlain(s[1..], d);
      assert [s[0]] + s[1..] == s;
    }
  }

  /** A delimiter after a plain first field splits it off. */
  lemma {:induction false} FieldsOfJoined(a: string, d: char, b: string)
    requires d !in a
    ensures Fields(a + [d] + b, d) == [a] + Fields(b, d)
    decreases |a|
  {
    if a == [] {
      assert a + [d] + b == [d] + b;
      assert ([d] + b)[1..] == b;
    } else {
      FieldsOfJoined(a[1..], d, b);
      assert (a + [d] + b)[1..] == a[1..] + [d] + b;
      assert [a[0]] + a[1..] == a;
    }
  }

  /** A name `prefix`, delimiter, `field`, with both parts non-empty and plain, splits into those two parts. */
  lemma SplitName(prefix: string, d: char, field: string)
    requires d !in prefix && d !in field && prefix != [] && field != []
    ensures Split(prefix + [d] + field, d) == [prefix, field]
  {
    FieldsOfJoined(prefix, d, field);
    FieldsOfPlain(field, d);
  }

  /** Whether `setStatus` can read the name without running past the fields `split` gives. */
  predicate Readable(name: string, ids: SegmentIdentifiers)
  {
    var parsed := Split(name, ids.delimiter);
    |parsed| >= 1 &&
    (parsed[0] in {ids.depot, ids.loop, ids.station, ids.mainline} ==> |parsed| >= 2)
  }

  /**
   * The status text of a train whose head is on a segment with the given name (`None` when the
   * head is on no segment yet). A `None` result is the null left by an unknown prefix.
   */
  function Status(segmentName: Option<string>, ids: SegmentIdentifiers): (r: Option<string>)
    requires segmentName.Some? ==> Readable(segmentName.value, ids)
    ensures segmentName.None? ==> r == Some("Preparing")
  {
    if segmentName.None? then Some("Preparing")
    else
      var parsed := Split(segmentName.value, ids.delimiter);
      if parsed[0] == ids.depot then
        Some(if parsed[1] == ids.depotIn then "Exiting system" else "Entering system")
      else if parsed[0] == ids.loop then Some("Going " + parsed[1])
      else if parsed[0] == ids.station then Some("At " + parsed[1])
      else if parsed[0] == ids.mainline then Some("From " + parsed[1])
      else None
  }

  /** The statuses of well-formed names: each kind of segment gives its phrase followed by the name's field. */
  lemma StatusOfName(prefix: string, field: string, ids: SegmentIdentifiers)
    requires ids.delimiter !in prefix && ids.delimiter !in field && prefix != [] && field != []
    ensures var name := prefix + [ids.delimiter] + field;
            Readable(name, ids) &&
            Status(Some(name), ids) ==
              if prefix == ids.depot then
                Some(if field == ids.depotIn then "Exiting system" else "Entering system")
              else if prefix == ids.loop then Some("Going " + field)
              else if prefix == ids.station then Some("At " + field)
              else if prefix == ids.mainline then Some("From " + field)
              else None
  {
    SplitName(prefix, ids.delimiter, field);
  }

  function DigitChar(d: nat): char
    requires d < 10
  {
    "0123456789"[d]
  }

  function DigitValue(c: char): int
  {
    c as int - '0' as int
  }

  /** The decimal digits of `n`, most significant first, without leading zeros. */
  function Digits(n: nat): (r: string)
    ensures |r| >= 1
  {
    if n < 10 then [DigitChar(n)] else Digits(n / 10) + [DigitChar(n % 10)]
  }

  /** `Integer.toString`: the decimal string of `n`, with a minus sign when negative. */
  function DecimalString(n: int): string
  {
    if n < 0 then "-" + Digits(-n) else Digits(n)
  }

  /** The value of a string of decimal digits. */
  function DigitsValue(s: string): int
  {
    if s == [] then 0 else DigitsValue(s[..|s| - 1]) * 10 + DigitValue(s[|s| - 1])
  }

  /** `Integer.parseInt` on what `DecimalString` produces. */
  function ParseDecimal(s: string): int
  {
    if s != [] && s[0] == '-' then -DigitsValue(s[1..]) else DigitsValue(s)
  }

  lemma {:induction false} DigitsRoundTrip(n: nat)
    ensures DigitsValue(Digits(n)) == n
    ensures '-' !in Digits(n)
  {
    if n >= 10 {
      DigitsRoundTrip(n / 10);
      var s := Digits(n);
      assert s[..|s| - 1] == Digits(n / 10);
      assert DigitValue(DigitChar(n % 10)) == n % 10;
    } else {
      assert DigitValue(DigitChar(n)) == n;
    }
  }

  /** The decimal string of a number reads back as that number. */
  lemma DecimalRoundTrip(n: int)
    ensures ParseDecimal(DecimalString(n)) == n
  {
    if n < 0 {
      var digits := Digits(-n);
      DigitsRoundTrip(-n);
      var s := "-" + digits;
      assert s[0] == '-' && s[1..] == digits;
    } else {
      var digits := Digits(n);
      DigitsRoundTrip(n);
      assert digits[0] in digits;
    }
  }

  /** The summary of a train, as the train table shows it. */
  class TrainProperty {
    var trainNumber: string
    /** `None` is a null status, left by an unknown segment prefix. */
    var status: Option<string>
    var numberOfCarriages: string
    var carriageClassName: string
    var totalPassengerCapacity: string

    /** A summary filled in from the train at once. */
    constructor (identifier: int, segmentName: Option<string>, ids: SegmentIdentifiers, head: TrainCarriage, carriageCount: int)
      requires segmentName.Some? ==> Readable(segmentName.value, ids)
      ensures Summarises(identifier, segmentName, ids, head, carriageCount)
    {
      DecimalRoundTrip(identifier);
      DecimalRoundTrip(carriageCount);
      DecimalRoundTrip(carriageCount * head.capacity);
      trainNumber := DecimalString(identifier);
      status := Status(segmentName, ids);
      numberOfCarriages := DecimalString(carriageCount);
      carriageClassName := head.className;
      totalPassengerCapacity := DecimalString(carriageCount * head.capacity);
    }

    /**
     * Whether the summary describes the train: its identifier, the status of its head's
     * segment, the carriage count, the head's class, and a capacity of the count times the
     * head carriage's capacity.
     */
    predicate Summarises(identifier: int, segmentName: Option<string>, ids: SegmentIdentifiers,
                         head: TrainCarriage, carriageCount: int)
      requires segmentName.Some? ==> Readable(segmentName.value, ids)
      reads this
    {
      ParseDecimal(trainNumber) == identifier &&
      status == Status(segmentName, ids) &&
      ParseDecimal(numberOfCarriages) == carriageCount &&
      carriageClassName == head.className &&
      ParseDecimal(totalPassengerCapacity) == carriageCount * head.capacity &&
      trainNumber == DecimalString(identifier) && numberOfCarriages == DecimalString(carriageCount) &&
      totalPassengerCapacity == DecimalString(carriageCount * head.capacity)
    }

    /** Refreshes the summary from the train (`updateTrainProperty`). */
    method Update(identifier: int, segmentName: Option<string>, ids: SegmentIdentifiers, head: TrainCarriage,
                  carriageCount: int)
      requires segmentName.Some? ==> Readable(segmentName.value, ids)
      modifies this
      ensures Summarises(identifier, segmentName, ids, head, carriageCount)
    {
      DecimalRoundTrip(identifier);
      DecimalRoundTrip(carriageCount);
      DecimalRoundTrip(carriageCount * head.capacity);
      trainNumber := DecimalString(identifier);
      status := Status(segmentName, ids);
      numberOfCarriages := DecimalString(carriageCount);
      carriageClassName := head.className;
      totalPassengerCapacity := DecimalString(carriageCount * head.capacity);
    }
  }
}
