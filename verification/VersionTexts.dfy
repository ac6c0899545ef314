/** Versions as text: file names and requests carry a version as the number of its clocks and the clocks,
    each a writer's key, its time and, if it is not zero, its count. */
module VersionTexts {
  import opened Bytes
  import opened Texts

  const WORD := 0xFFFF_FFFF_FFFF_FFFF
  const UNSIGNED := 0xFFFF_FFFF

  type Time = t: int | 0 <= t <= WORD

  datatype Stamped = Stamped(key: string, time: Time, count: nat)

  /** `base64::encode_bin` and `base64::decode_as<uint64_t>`. */
  datatype Codec = Codec(encode: Time -> string, decode: string -> Time)

  const CODE_LENGTH := 12

  /** A time becomes twelve characters that no version text uses otherwise, and decoding reads no more than
      them. */
  ghost predicate Sound(codec: Codec) {
    forall t: Time ::
      && |codec.encode(t)| == CODE_LENGTH
      && (forall c <- codec.encode(t) :: c != '.' && c != ',' && !IsSpace(c))
      && forall rest: string :: codec.decode(codec.encode(t) + rest) == t
  }

  predicate Fits(c: Stamped) {
    c.count <= UNSIGNED && forall x <- c.key :: x != '.' && x != ',' && !IsSpace(x)
  }

  function CountText(count: nat): string {
    if count == 0 then "" else ['.'] + Decimal(count)
  }

  function ClockText(codec: Codec, c: Stamped): string {
    c.key + ['.'] + (codec.encode(c.time) + CountText(c.count))
  }

  function ClocksText(codec: Codec, clocks: seq<Stamped>): string {
    if clocks == [] then "" else [','] + ClockText(codec, clocks[0]) + ClocksText(codec, clocks[1..])
  }

  /** `toString`. */
  function ToText(codec: Codec, clocks: seq<Stamped>): string {
    Decimal(|clocks|) + ClocksText(codec, clocks)
  }

  /** `substr(from, length)`: as much as there is. */
  function Substr(s: string, start: nat, length: nat): string
    requires start <= |s|
  {
    if start + length <= |s| then s[start..start + length] else s[start..]
  }

  /** One clock from one word. The length of the time's text is taken to be the place of the second dot, which
      is too much. A word without a dot leaves an empty clock; a count without digits throws. */
  function ClockFrom(codec: Codec, word: string): Option<Stamped> {
    match Find(word, '.', 0)
    case None => Some(Stamped("", 0, 0))
    case Some(pos) =>
      var key := word[..pos];
      match Find(word, '.', pos + 1)
      case None => Some(Stamped(key, codec.decode(word[pos + 1..]), 0))
      case Some(countPos) =>
        var time := codec.decode(Substr(word, pos + 1, countPos));
        match ReadNumber(word[countPos + 1..], WORD)
        case None => None
        case Some((count, _)) => Some(Stamped(key, time, count % (UNSIGNED + 1)))
  }

  /** Reads `size` clocks, or none at all if the text ends before. */
  function ClocksFrom(codec: Codec, s: string, size: nat): Option<seq<Stamped>> {
    if size == 0 then Some([])
    else
      match ReadToken(s)
      case None => None
      case Some((word, rest)) =>
        match ClockFrom(codec, word)
        case None => None
        case Some(c) =>
          match ClocksFrom(codec, rest, size - 1)
          case None => None
          case Some(more) => Some([c] + more)
  }

  function Spaced(s: string): (r: string)
    ensures |r| == |s| && forall i | 0 <= i < |s| :: r[i] == if s[i] == ',' then ' ' else s[i]
  {
    seq(|s|, i requires 0 <= i < |s| => if s[i] == ',' then ' ' else s[i])
  }

  /** `fromString`. */
  function FromText(codec: Codec, s: string): Option<seq<Stamped>> {
    match ReadNumber(Spaced(s), UNSIGNED)
    case None => None
    case Some((size, rest)) => ClocksFrom(codec, rest, size)
  }

  /** What a version looks like. */
  lemma AVersionAsText(codec: Codec, t: Time, u: Time)
    ensures ToText(codec, []) == "0"
    ensures ToText(codec, [Stamped("x", t, 0), Stamped("node", u, 12)])
         == "2,x." + codec.encode(t) + ",node." + codec.encode(u) + ".12"
  {
    var a, b := Stamped("x", t, 0), Stamped("node", u, 12);
    assert Decimal(12) == Decimal(1) + "2" == "12";
    assert ClockText(codec, a) == "x." + codec.encode(t);
    assert ClockText(codec, b) == "node." + codec.encode(u) + ".12";
    assert [a, b][1..] == [b] && [b][1..] == [];
    assert ClocksText(codec, [b]) == "," + ClockText(codec, b);
    assert ClocksText(codec, [a, b]) == "," + ClockText(codec, a) + ClocksText(codec, [b]);
  }

  class VectorClock {
    const codec: Codec
    var clocks: seq<Stamped>

    constructor (codec: Codec)
      ensures this.codec == codec && clocks == []
    {
      this.codec, clocks := codec, [];
    }

    /** Changes nothing when the text is no version. */
    method FromString(str: string) returns (ok: bool)
      modifies this
      ensures ok == FromText(codec, str).Some?
      ensures clocks == if ok then FromText(codec, str).value else old(clocks)
      // all of the clocks that the text announces, or none
      ensures ok ==> var header := ReadNumber(Spaced(str), UNSIGNED); header.Some? && |clocks| == header.value.0
    {
      hide ReadNumber, ReadToken, ClockFrom, Spaced;
      var header := ReadNumber(Spaced(str), UNSIGNED);
      if header.None? {
        return false;
      }
      var (size, rest) := header.value;
      var read := [];
      var i := 0;
      ghost var start := rest;
      assert forall more: seq<Stamped> :: read + more == more;
      while i < size
        invariant 0 <= i <= size && |read| == i && clocks == old(clocks)
        invariant match ClocksFrom(codec, rest, size - i)
                  case None => ClocksFrom(codec, start, size) == None
                  case Some(more) => ClocksFrom(codec, start, size) == Some(read + more)
      {
        var token := ReadToken(rest);
        if token.None? {
          return false;
        }
        var cl := ClockFrom(codec, token.value.0);
        if cl.None? {
          return false;
        }
        Regrouped(read, cl.value, ClocksFrom(codec, token.value.1, size - i - 1));
        read := read + [cl.value];
        rest := token.value.1;
        i := i + 1;
      }
      assert read + [] == read;
      clocks := read;
      return true;
    }
  }

  lemma Regrouped(read: seq<Stamped>, c: Stamped, more: Option<seq<Stamped>>)
    ensures more.Some? ==> read + ([c] + more.value) == read + [c] + more.value
  {
  }

  lemma CodeOf(codec: Codec, t: Time)
    requires Sound(codec)
    ensures |codec.encode(t)| == CODE_LENGTH && codec.decode(codec.encode(t)) == t
    ensures forall i | 0 <= i < CODE_LENGTH :: codec.encode(t)[i] != '.'
    ensures forall c <- codec.encode(t) :: c != ',' && !IsSpace(c)
  {
    assert codec.encode(t) + "" == codec.encode(t);
    assert forall i | 0 <= i < CODE_LENGTH :: codec.encode(t)[i] in codec.encode(t);
  }

  lemma ClockWithoutCount(codec: Codec, c: Stamped)
    requires Sound(codec) && Fits(c) && c.count == 0
    ensures ClockFrom(codec, ClockText(codec, c)) == Some(c)
  {
    hide Find, Sound;
    CodeOf(codec, c.time);
    var time, word, pos := codec.encode(c.time), ClockText(codec, c), |c.key|;
    assert forall i | 0 <= i < |c.key| :: c.key[i] in c.key;
    assert word == c.key + ['.'] + time;
    Finds(c.key, '.', time, 0);
    assert word[..pos] == c.key && word[pos + 1..] == time;
    assert forall i | pos + 1 <= i < |word| :: word[i] == time[i - pos - 1];
    FindsNone(word, '.', pos + 1);
  }

  lemma ClockWithCount(codec: Codec, c: Stamped)
    requires Sound(codec) && Fits(c) && c.count != 0
    ensures ClockFrom(codec, ClockText(codec, c)) == Some(c)
  {
    hide ClockFrom, Sound, Decimal;
    CountIsRead(codec, c.key, c.time, c.count);
    assert ClockText(codec, c) == c.key + ['.'] + codec.encode(c.time) + ['.'] + Decimal(c.count);
  }

  /** A word without a dot leaves an empty clock, and of a count only 32 bits are kept. */
  lemma OddClocks(codec: Codec, word: string, key: string, t: Time, count: nat)
    requires Sound(codec) && (forall c <- word :: c != '.') && (forall c <- key :: c != '.') && count <= WORD
    ensures ClockFrom(codec, word) == Some(Stamped("", 0, 0))
    ensures ClockFrom(codec, key + ['.'] + codec.encode(t) + ['.'] + Decimal(count))
         == Some(Stamped(key, t, count % 0x1_0000_0000))
  {
    hide Find, Sound, Decimal, ReadNumber;
    assert forall i | 0 <= i < |word| :: word[i] in word;
    FindsNone(word, '.', 0);
    CodeOf(codec, t);
    CountIsRead(codec, key, t, count);
  }

  lemma CountIsRead(codec: Codec, key: string, t: Time, number: nat)
    requires Sound(codec) && (forall c <- key :: c != '.') && number <= WORD
    ensures ClockFrom(codec, key + ['.'] + codec.encode(t) + ['.'] + Decimal(number))
         == Some(Stamped(key, t, number % (UNSIGNED + 1)))
  {
    hide Find, Sound, Decimal, ReadNumber;
    CodeOf(codec, t);
    var time, count, pos := codec.encode(t), Decimal(number), |key|;
    var before := key + ['.'] + time;
    var word := before + ['.'] + count;
    assert forall i | 0 <= i < |key| :: key[i] in key;
    assert word == key + ['.'] + (time + ['.'] + count);
    Finds(key, '.', time + ['.'] + count, 0);
    assert forall i | pos + 1 <= i < |before| :: before[i] == time[i - pos - 1];
    Finds(before, '.', count, pos + 1);
    assert word[..pos] == key && word[pos + 1..] == time + (['.'] + count) && word[|before| + 1..] == count;
    assert count == count + "";
    NumberReadsBack(number, "", WORD);
    ExtraIgnored(codec, t, ['.'] + count, |before|);
    assert Substr(word, pos + 1, |before|) == Substr(time + (['.'] + count), 0, |before|);
  }

  /** A clock is one word, and reads back. */
  lemma ClockReadsBack(codec: Codec, c: Stamped)
    requires Sound(codec) && Fits(c)
    ensures ClockFrom(codec, ClockText(codec, c)) == Some(c)
    ensures ClockText(codec, c) != "" && forall x <- ClockText(codec, c) :: x != ',' && !IsSpace(x)
  {
    hide ClockFrom, Sound, Decimal;
    if c.count == 0 {
      ClockWithoutCount(codec, c);
    } else {
      ClockWithCount(codec, c);
    }
    CodeOf(codec, c.time);
  }

  /** However much too long a piece is taken, its time is decoded. */
  lemma ExtraIgnored(codec: Codec, t: Time, after: string, length: nat)
    requires Sound(codec) && length >= CODE_LENGTH
    ensures codec.decode(Substr(codec.encode(t) + after, 0, length)) == t
  {
    var s := Substr(codec.encode(t) + after, 0, length);
    assert s == codec.encode(t) + s[CODE_LENGTH..];
  }

  lemma {:induction false} ClocksReadBack(codec: Codec, clocks: seq<Stamped>)
    requires Sound(codec) && forall c <- clocks :: Fits(c)
    ensures ClocksFrom(codec, Spaced(ClocksText(codec, clocks)), |clocks|) == Some(clocks)
  {
    hide Sound, ClockText, ClockFrom, ReadToken;
    if clocks != [] {
      ClockReadsBack(codec, clocks[0]);
      ClocksReadBack(codec, clocks[1..]);
      var (word, rest) := (ClockText(codec, clocks[0]), ClocksText(codec, clocks[1..]));
      SpacedWord(word, rest);
      TokenReadsBack(word, Spaced(rest));
      assert [clocks[0]] + clocks[1..] == clocks;
    }
  }

  lemma SpacedWord(word: string, rest: string)
    requires forall x <- word :: x != ','
    ensures Spaced([','] + word + rest) == [' '] + word + Spaced(rest)
  {
    assert forall i | 0 <= i < |word| :: word[i] in word;
  }

  /** Every version whose keys are free of dots, commas and spaces reads back as it was: the counts that are
      written and those that are not, and the times although too much text is passed to the decoder. */
  lemma VersionReadsBack(codec: Codec, clocks: seq<Stamped>)
    requires Sound(codec) && |clocks| <= UNSIGNED && forall c <- clocks :: Fits(c)
    ensures FromText(codec, ToText(codec, clocks)) == Some(clocks)
  {
    hide Sound, ClockText, ReadNumber, ClocksFrom, Decimal;
    var rest := ClocksText(codec, clocks);
    assert Spaced(Decimal(|clocks|) + rest) == Decimal(|clocks|) + Spaced(rest) by {
      assert forall i | 0 <= i < |Decimal(|clocks|)| :: Decimal(|clocks|)[i] in Decimal(|clocks|);
    }
    NumberReadsBack(|clocks|, Spaced(rest), UNSIGNED);
    ClocksReadBack(codec, clocks);
  }
}
