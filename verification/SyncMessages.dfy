/** The body of a sync message: Merkle points as text. */
module SyncMessages {
  import opened Bytes
  import opened Texts

  const WORD := 0xFFFF_FFFF_FFFF_FFFF
  const BITS := 0xFFFF

  datatype Point = Point(key: nat, keybits: nat, hash: nat)

  /** The fields are a 64-bit key, a 16-bit number of bits and a 64-bit hash. */
  predicate Fits(p: Point) {
    p.key <= WORD && p.keybits <= BITS && p.hash <= WORD
  }

  /** `MerklePointSerializer::toString`. */
  function ToText(p: Point): string {
    Decimal(p.key) + ([' '] + Decimal(p.keybits) + ([' '] + Decimal(p.hash)))
  }

  /** `MerklePointSerializer::fromString`, which ignores what follows the third number. */
  function FromText(s: string): Option<Point> {
    match ReadNumber(s, WORD)
    case None => None
    case Some((key, s1)) =>
      match ReadNumber(s1, BITS)
      case None => None
      case Some((keybits, s2)) =>
        match ReadNumber(s2, WORD)
        case None => None
        case Some((hash, _)) => Some(Point(key, keybits, hash))
  }

  lemma PointReadsBack(p: Point)
    requires Fits(p)
    ensures FromText(ToText(p)) == Some(p)
    ensures '|' !in ToText(p)
  {
    hide Decimal, ReadNumber, FromText;
    assert ToText(p) + "" == ToText(p);
    PointWithTail(p, "");
  }

  /** What follows a point is ignored; a number that is too large for its field makes it none. */
  lemma PointWithTail(p: Point, tail: string)
    requires tail == "" || !IsDigit(tail[0])
    ensures FromText(ToText(p) + tail) == if Fits(p) then Some(p) else None
  {
    hide Decimal, ReadNumber;
    var last := [' '] + Decimal(p.hash) + tail;
    var middle := [' '] + Decimal(p.keybits) + last;
    assert ToText(p) + tail == Decimal(p.key) + middle;
    NumberIsRead(p.key, middle, WORD);
    NumberIsRead(p.keybits, last, BITS);
    NumberIsRead(p.hash, tail, WORD);
  }

  function Lines(points: seq<Point>): (parts: seq<string>)
    ensures |parts| == |points| && forall i | 0 <= i < |points| :: parts[i] == ToText(points[i])
  {
    seq(|points|, i requires 0 <= i < |points| => ToText(points[i]))
  }

  /** `MessageSender::digestPing` over a list of points. */
  method DigestPing(points: seq<Point>) returns (body: string)
    requires points != []
    ensures body == Joined(Lines(points), '|')
  {
    body := ToText(points[0]);
    var i := 1;
    ghost var parts := Lines(points);
    assert parts[..1] == [parts[0]];
    while i < |points|
      invariant 1 <= i <= |points| && body == Joined(parts[..i], '|')
    {
      JoinedOneMore(parts[..i], ToText(points[i]), '|');
      assert parts[..i + 1] == parts[..i] + [parts[i]];
      body := body + "|" + ToText(points[i]);
      i := i + 1;
    }
    assert parts[..i] == parts;
  }

  lemma SomeDecimals()
    ensures Decimal(10) == "10" && Decimal(64) == "64" && Decimal(3) == "3" && Decimal(7) == "7" && Decimal(0) == "0"
  {
    assert Decimal(10) == Decimal(1) + "0";
    assert Decimal(64) == Decimal(6) + "4";
  }

  /** What a ping looks like. */
  lemma APingAsText()
    ensures Joined(Lines([Point(10, 3, 7), Point(7, 64, 0)]), '|') == "10 3 7|7 64 0"
  {
    SomeDecimals();
    hide Decimal;
    var p, q := Point(10, 3, 7), Point(7, 64, 0);
    assert ToText(p) == "10 3 7" && ToText(q) == "7 64 0";
    hide ToText;
    assert Lines([p, q]) == [ToText(p), ToText(q)] && Lines([p, q])[1..] == [ToText(q)];
  }

  lemma {:induction false} JoinedOneMore(parts: seq<string>, part: string, c: char)
    requires parts != []
    ensures Joined(parts + [part], c) == Joined(parts, c) + [c] + part
  {
    var more := parts + [part];
    if |parts| == 1 {
      assert more[1..] == [part];
    } else {
      assert more[1..] == parts[1..] + [part];
      JoinedOneMore(parts[1..], part, c);
      assert parts[0] + [c] + (Joined(parts[1..], c) + [c] + part) == (parts[0] + [c] + Joined(parts[1..], c)) + [c] + part;
    }
  }

  /** One call of `Synchronizer::compare`. */
  datatype Compare = Compare(point: Point, isSyncResponse: bool)

  /** The first of these texts, read, and from the third one on marked as responses. */
  ghost predicate Reads(parts: seq<string>, done: seq<Compare>) {
    && |done| <= |parts|
    && forall i | 0 <= i < |done| :: FromText(parts[i]) == Some(done[i].point) && (done[i].isSyncResponse <==> i >= 2)
  }

  /** `SyncCommand`. */
  class SyncCommand {
    var compared: seq<Compare>

    constructor ()
      ensures compared == []
    {
      compared := [];
    }

    /** Compares point after point, up to the first that does not parse. */
    method Run(buff: string) returns (ok: bool, ghost done: seq<Compare>)
      modifies this
      ensures compared == old(compared) + done && Reads(Split(buff, '|'), done)
      ensures ok <==> buff != "" && |done| == |Split(buff, '|')|
      ensures !ok && buff != "" ==> FromText(Split(buff, '|')[|done|]) == None
    {
      hide Split, FromText;
      done := [];
      if buff == "" {
        return false, done;
      }
      var points := Split(buff, '|');
      var i := 0;
      while i < |points|
        invariant 0 <= i <= |points| && |done| == i && compared == old(compared) + done && Reads(points, done)
      {
        var point := FromText(points[i]);
        if point.None? {
          return false, done;
        }
        compared := compared + [Compare(point.value, i >= 2)];
        done := done + [Compare(point.value, i >= 2)];
        i := i + 1;
      }
      return true, done;
    }
  }

  /** What the receiver of a ping compares: the same points, in order, and from the third one on as responses. */
  lemma PingReadsBack(points: seq<Point>)
    requires points != [] && forall p <- points :: Fits(p)
    ensures Joined(Lines(points), '|') != ""
    ensures var parts := Split(Joined(Lines(points), '|'), '|');
      |parts| == |points| && forall i | 0 <= i < |points| :: FromText(parts[i]) == Some(points[i])
  {
    forall i | 0 <= i < |points| ensures FromText(ToText(points[i])) == Some(points[i]) && '|' !in ToText(points[i]) {
      PointReadsBack(points[i]);
    }
    SplitsBack(Lines(points), '|');
  }

  /** A ping, sent and received. */
  method Exchange(points: seq<Point>, receiver: SyncCommand) returns (ok: bool)
    requires points != [] && forall p <- points :: Fits(p)
    requires receiver.compared == []
    modifies receiver
    ensures ok && |receiver.compared| == |points|
    ensures forall i | 0 <= i < |points| :: receiver.compared[i] == Compare(points[i], i >= 2)
  {
    var body := DigestPing(points);
    PingReadsBack(points);
    ghost var done;
    ok, done := receiver.Run(body);
    assert receiver.compared == done;
  }
}
