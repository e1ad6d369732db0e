/** Reply normalisation: the same result whichever protocol version shaped the reply. */
module Replies {
  import opened Wrappers
  import opened Varint

  datatype Value =
    | Nil
    | Okay
    | Int(i: int)
    | Bulk(bytes: seq<byte>)
    | Simple(text: string)
    | Array(items: seq<Value>)
    | Map(entries: seq<(Value, Value)>)
    | Set(members: seq<Value>)
    | Double(d: real)
    | Boolean(b: bool)

  datatype ExpectedType = AsMap | AsDouble | AsBoolean | AsSet | AsDoubleOrNull

  datatype ReplyError =
    | OddItems
    | NotAMap(v: Value)
    | NotASet(v: Value)
    | NotADouble(v: Value)
    | NotABoolean(v: Value)
    | NotATransaction(v: Value)

  /** The client library's readings of scalar values; they are not part of this model. */
  datatype Scalars = Scalars(
    asDouble: Value -> Option<real>, asBoolean: Value -> Option<bool>, doubleText: real -> seq<byte>)

  /** Arrays, maps and sets have no scalar reading. */
  predicate IsScalar(value: Value) {
    !value.Array? && !value.Map? && !value.Set?
  }

  /** Items two by two, unless one is left over. */
  function Paired(items: seq<Value>): Option<seq<(Value, Value)>> {
    if |items| % 2 == 1 then None
    else Some(seq(|items| / 2, i requires 0 <= i < |items| / 2 => (items[2 * i], items[2 * i + 1])))
  }

  function ToDouble(scalars: Scalars, value: Value): Result<Value, ReplyError> {
    match if IsScalar(value) then scalars.asDouble(value) else None
    case None => Err(NotADouble(value))
    case Some(d) => Ok(Double(d))
  }

  function ToBoolean(scalars: Scalars, value: Value): Result<Value, ReplyError> {
    match if IsScalar(value) then scalars.asBoolean(value) else None
    case None => Err(NotABoolean(value))
    case Some(b) => Ok(Boolean(b))
  }

  function Convert(scalars: Scalars, value: Value, expected: Option<ExpectedType>): Result<Value, ReplyError> {
    match expected
    case None => Ok(value)
    case Some(AsMap) =>
      if value.Nil? || value.Map? then Ok(value)
      else if !value.Array? then Err(NotAMap(value))
      else (match Paired(value.items) case None => Err(OddItems) case Some(entries) => Ok(Map(entries)))
    case Some(AsSet) =>
      if value.Nil? || value.Set? then Ok(value)
      else if value.Array? then Ok(Set(value.items))
      else Err(NotASet(value))
    case Some(AsDouble) => ToDouble(scalars, value)
    case Some(AsBoolean) => ToBoolean(scalars, value)
    case Some(AsDoubleOrNull) =>
      if value.Nil? then Ok(value) else ToDouble(scalars, value)
  }

  /** The map branch's loop: keys and values are drawn alternately from one iterator. */
  method PairUp(items: seq<Value>) returns (r: Option<seq<(Value, Value)>>)
    ensures r == Paired(items)
  {
    var entries, next := [], 0;
    while next < |items|
      invariant next <= |items| && next == 2 * |entries|
      invariant forall i :: 0 <= i < |entries| ==> entries[i] == (items[2 * i], items[2 * i + 1])
    {
      var key := items[next];
      next := next + 1;
      if next == |items| {
        return None;
      }
      entries := entries + [(key, items[next])];
      next := next + 1;
    }
    assert Paired(items).value == entries;
    return Some(entries);
  }

  // --------------------------------------------------------- the two shapes

  function Flattened(entries: seq<(Value, Value)>): seq<Value> {
    seq(2 * |entries|, i requires 0 <= i < 2 * |entries| => if i % 2 == 0 then entries[i / 2].0 else entries[i / 2].1)
  }

  /** The older protocol has no maps, sets, doubles or booleans, at any depth: they arrive as arrays, as
      text and as 0 or 1. */
  function Resp2(scalars: Scalars, value: Value): Value {
    match value
    case Array(items) => Array(seq(|items|, i requires 0 <= i < |items| => Resp2(scalars, items[i])))
    case Map(entries) =>
      Array(Flattened(seq(|entries|, i requires 0 <= i < |entries| =>
        (Resp2(scalars, entries[i].0), Resp2(scalars, entries[i].1)))))
    case Set(members) => Array(seq(|members|, i requires 0 <= i < |members| => Resp2(scalars, members[i])))
    case Double(d) => Bulk(scalars.doubleText(d))
    case Boolean(b) => Int(if b then 1 else 0)
    case _ => value
  }

  function Resp2All(scalars: Scalars, values: seq<Value>): seq<Value> {
    seq(|values|, i requires 0 <= i < |values| => Resp2(scalars, values[i]))
  }

  function Resp2Pairs(scalars: Scalars, entries: seq<(Value, Value)>): seq<(Value, Value)> {
    seq(|entries|, i requires 0 <= i < |entries| => (Resp2(scalars, entries[i].0), Resp2(scalars, entries[i].1)))
  }

  lemma PairedFlattened(entries: seq<(Value, Value)>)
    ensures Paired(Flattened(entries)) == Some(entries)
  {
    var items := Flattened(entries);
    forall i | 0 <= i < |entries| ensures (items[2 * i], items[2 * i + 1]) == entries[i] {
      assert (2 * i) / 2 == i && (2 * i + 1) / 2 == i;
    }
    assert Paired(items).value == entries;
  }

  lemma FlattenedPaired(items: seq<Value>)
    requires |items| % 2 == 0
    ensures Flattened(Paired(items).value) == items
  {
  }

  /** Nothing at any depth that the older protocol lacks. */
  predicate Plain(value: Value) {
    match value
    case Array(items) => forall i :: 0 <= i < |items| ==> Plain(items[i])
    case Map(_) => false
    case Set(_) => false
    case Double(_) => false
    case Boolean(_) => false
    case _ => true
  }

  predicate AllPlain(values: seq<Value>) {
    forall i :: 0 <= i < |values| ==> Plain(values[i])
  }

  /** Plain values, and no others, look the same in both protocols. */
  lemma {:induction false} PlainLooksTheSame(scalars: Scalars, value: Value)
    ensures Resp2(scalars, value) == value <==> Plain(value)
  {
    if value.Array? {
      forall i | 0 <= i < |value.items| ensures Resp2(scalars, value.items[i]) == value.items[i] <==> Plain(value.items[i]) {
        PlainLooksTheSame(scalars, value.items[i]);
      }
      var there := Resp2(scalars, value).items;
      if there == value.items {
        forall i | 0 <= i < |value.items| ensures Plain(value.items[i]) {
          assert there[i] == Resp2(scalars, value.items[i]);
        }
      }
    }
  }

  lemma AllPlainLookTheSame(scalars: Scalars, values: seq<Value>)
    ensures Resp2All(scalars, values) == values <==> AllPlain(values)
  {
    forall i | 0 <= i < |values| ensures Resp2All(scalars, values)[i] == values[i] <==> Plain(values[i]) {
      PlainLooksTheSame(scalars, values[i]);
    }
    if Resp2All(scalars, values) == values {
      forall i | 0 <= i < |values| ensures Plain(values[i]) {
        assert Resp2All(scalars, values)[i] == values[i];
      }
    }
  }

  predicate PlainPair(entry: (Value, Value)) {
    Plain(entry.0) && Plain(entry.1)
  }

  lemma PlainPairsLookTheSame(scalars: Scalars, entries: seq<(Value, Value)>)
    ensures Resp2Pairs(scalars, entries) == entries <==> forall i :: 0 <= i < |entries| ==> PlainPair(entries[i])
  {
    forall i | 0 <= i < |entries| ensures Resp2Pairs(scalars, entries)[i] == entries[i] <==> PlainPair(entries[i]) {
      PlainLooksTheSame(scalars, entries[i].0);
      PlainLooksTheSame(scalars, entries[i].1);
    }
    if Resp2Pairs(scalars, entries) == entries {
      forall i | 0 <= i < |entries| ensures PlainPair(entries[i]) {
        assert Resp2Pairs(scalars, entries)[i] == entries[i];
      }
    }
  }

  /** The client library reads both forms of a scalar as the same value of the declared type. */
  predicate ReadAlike(scalars: Scalars, value: Value, expected: Option<ExpectedType>) {
    var older := Resp2(scalars, value);
    match expected
    case Some(AsDouble) => scalars.asDouble(value).Some? && scalars.asDouble(older) == scalars.asDouble(value)
    case Some(AsDoubleOrNull) => scalars.asDouble(value).Some? && scalars.asDouble(older) == scalars.asDouble(value)
    case Some(AsBoolean) => scalars.asBoolean(value).Some? && scalars.asBoolean(older) == scalars.asBoolean(value)
    case _ => false
  }

  /** The command declares what the older protocol lacks and nothing inside is such a value, or a flat
      map has a key too many, which is the same error either way. */
  predicate Alike(scalars: Scalars, value: Value, expected: Option<ExpectedType>) {
    match value
    case Map(entries) => expected == Some(AsMap) && forall i :: 0 <= i < |entries| ==> PlainPair(entries[i])
    case Set(members) => expected == Some(AsSet) && AllPlain(members)
    case Array(items) => AllPlain(items) || (expected == Some(AsMap) && |items| % 2 == 1)
    case Double(_) => ReadAlike(scalars, value, expected)
    case Boolean(_) => ReadAlike(scalars, value, expected)
    case _ => true
  }

  lemma ArraysConvertAlike(scalars: Scalars, items: seq<Value>, expected: Option<ExpectedType>)
    ensures Convert(scalars, Resp2(scalars, Array(items)), expected) == Convert(scalars, Array(items), expected) <==>
            Alike(scalars, Array(items), expected)
  {
    AllPlainLookTheSame(scalars, items);
    assert Resp2(scalars, Array(items)) == Array(Resp2All(scalars, items));
    if expected == Some(AsMap) && |items| % 2 == 0 {
      FlattenedPaired(items);
      FlattenedPaired(Resp2All(scalars, items));
    }
  }

  lemma FlatMapConverts(scalars: Scalars, flat: seq<(Value, Value)>, entries: seq<(Value, Value)>,
                        expected: Option<ExpectedType>)
    ensures Convert(scalars, Array(Flattened(flat)), expected) == Convert(scalars, Map(entries), expected) <==>
            expected == Some(AsMap) && flat == entries
  {
    PairedFlattened(flat);
  }

  lemma OlderMap(scalars: Scalars, entries: seq<(Value, Value)>)
    ensures Resp2(scalars, Map(entries)) == Array(Flattened(Resp2Pairs(scalars, entries)))
  {
  }

  lemma MapsConvertAlike(scalars: Scalars, entries: seq<(Value, Value)>, expected: Option<ExpectedType>)
    ensures Convert(scalars, Resp2(scalars, Map(entries)), expected) == Convert(scalars, Map(entries), expected) <==>
            Alike(scalars, Map(entries), expected)
  {
    OlderMap(scalars, entries);
    FlatMapConverts(scalars, Resp2Pairs(scalars, entries), entries, expected);
    PlainPairsLookTheSame(scalars, entries);
  }

  lemma SetsConvertAlike(scalars: Scalars, members: seq<Value>, expected: Option<ExpectedType>)
    ensures Convert(scalars, Resp2(scalars, Set(members)), expected) == Convert(scalars, Set(members), expected) <==>
            Alike(scalars, Set(members), expected)
  {
    AllPlainLookTheSame(scalars, members);
    assert Resp2(scalars, Set(members)) == Array(Resp2All(scalars, members));
  }

  /** Exactly the alike replies convert to the same value, or fail with the same error, whichever
      protocol version shaped them. */
  lemma ShapesConvertAlike(scalars: Scalars, value: Value, expected: Option<ExpectedType>)
    ensures Convert(scalars, Resp2(scalars, value), expected) == Convert(scalars, value, expected) <==> Alike(scalars, value, expected)
  {
    match value
    case Array(items) => ArraysConvertAlike(scalars, items, expected);
    case Map(entries) => MapsConvertAlike(scalars, entries, expected);
    case Set(members) => SetsConvertAlike(scalars, members, expected);
    case _ =>
  }

  /** ... so the reply of a command without a declared type can reach the caller in two shapes. */
  lemma UndeclaredMapDiffers(scalars: Scalars, key: Value, value: Value)
    requires Plain(key) && Plain(value)
    ensures Convert(scalars, Map([(key, value)]), None) == Ok(Map([(key, value)]))
    ensures Convert(scalars, Resp2(scalars, Map([(key, value)])), None) == Ok(Array([key, value]))
  {
    PlainLooksTheSame(scalars, key);
    PlainLooksTheSame(scalars, value);
    assert Flattened([(key, value)]) == [key, value];
    assert Resp2Pairs(scalars, [(key, value)]) == [(key, value)];
  }

  // ----------------------------------------------------- what conversion means

  /** Without a declared type every reply passes, and nil passes unless a plain double or boolean is
      declared: a key that is not there is no error. */
  lemma PassesThrough(scalars: Scalars, value: Value)
    ensures Convert(scalars, value, None) == Ok(value)
    ensures Convert(scalars, Nil, Some(AsMap)) == Ok(Nil)
    ensures Convert(scalars, Nil, Some(AsSet)) == Ok(Nil)
    ensures Convert(scalars, Nil, Some(AsDoubleOrNull)) == Ok(Nil)
  {
  }

  /** A declared map: a map stays, an array of keys and values becomes the map that lists exactly them
      in order, and everything else but nil is an error. */
  lemma MapMeaning(scalars: Scalars, value: Value)
    requires !value.Nil?
    ensures var r := Convert(scalars, value, Some(AsMap));
            && (r.Ok? <==> value.Map? || (value.Array? && |value.items| % 2 == 0))
            && (value.Map? ==> r == Ok(value))
            && (value.Array? && r.Ok? ==> r.value.Map? && Flattened(r.value.entries) == value.items)
            && (r.Err? ==> r.error == if value.Array? then OddItems else NotAMap(value))
  {
    if value.Array? && |value.items| % 2 == 0 {
      FlattenedPaired(value.items);
    }
  }

  /** A declared set: a set stays, an array becomes the set of exactly its items, and everything else
      but nil is an error. */
  lemma SetMeaning(scalars: Scalars, value: Value)
    requires !value.Nil?
    ensures var r := Convert(scalars, value, Some(AsSet));
            && (r.Ok? <==> value.Set? || value.Array?)
            && (r.Ok? ==> r.value.Set? && r.value.members == if value.Set? then value.members else value.items)
            && (r.Err? ==> r.error == NotASet(value))
  {
  }

  /** A declared double or boolean: exactly what the client library reads, and an error exactly when it
      reads nothing, as it does of arrays, maps and sets; nil too is read, unless it is allowed. */
  lemma ScalarMeaning(scalars: Scalars, value: Value)
    ensures var r := Convert(scalars, value, Some(AsDouble));
            && (r.Ok? <==> IsScalar(value) && scalars.asDouble(value).Some?)
            && (r.Ok? ==> r.value == Double(scalars.asDouble(value).value)) && (r.Err? ==> r.error == NotADouble(value))
    ensures var r := Convert(scalars, value, Some(AsBoolean));
            && (r.Ok? <==> IsScalar(value) && scalars.asBoolean(value).Some?)
            && (r.Ok? ==> r.value == Boolean(scalars.asBoolean(value).value)) && (r.Err? ==> r.error == NotABoolean(value))
    ensures !value.Nil? ==>
              Convert(scalars, value, Some(AsDoubleOrNull)) == Convert(scalars, value, Some(AsDouble))
  {
  }

  /** What has been converted stays as it is. */
  lemma ConvertIsIdempotent(scalars: Scalars, value: Value, expected: Option<ExpectedType>)
    requires expected in {None, Some(AsMap), Some(AsSet)}
    requires Convert(scalars, value, expected).Ok?
    ensures Convert(scalars, Convert(scalars, value, expected).value, expected) == Convert(scalars, value, expected)
  {
  }

  // ----------------------------------------------------------- transactions

  /** Converts each reply by its command's type; the first failure is the transaction's. Replies
      and commands are zipped, so the shorter list decides the length. */
  function ConvertAll(scalars: Scalars, values: seq<Value>, expected: seq<Option<ExpectedType>>)
    : Result<seq<Value>, ReplyError>
    decreases |values|
  {
    if values == [] || expected == [] then Ok([])
    else
      match Convert(scalars, values[0], expected[0])
      case Err(e) => Err(e)
      case Ok(v) =>
        match ConvertAll(scalars, values[1..], expected[1..])
        case Err(e) => Err(e)
        case Ok(vs) => Ok([v] + vs)
  }

  function Zipped(values: seq<Value>, expected: seq<Option<ExpectedType>>): nat {
    if |values| <= |expected| then |values| else |expected|
  }

  /** `e` is the error of the earliest reply that does not convert. */
  ghost predicate FirstError(scalars: Scalars, values: seq<Value>, expected: seq<Option<ExpectedType>>, e: ReplyError) {
    exists k | 0 <= k < Zipped(values, expected) ::
      && Convert(scalars, values[k], expected[k]) == Err(e)
      && forall i :: 0 <= i < k ==> Convert(scalars, values[i], expected[i]).Ok?
  }

  /** Position by position on success, and the first error otherwise. */
  lemma {:induction false} ConvertAllMeaning(scalars: Scalars, values: seq<Value>, expected: seq<Option<ExpectedType>>)
    ensures match ConvertAll(scalars, values, expected)
            case Ok(vs) =>
              && |vs| == Zipped(values, expected)
              && forall i :: 0 <= i < |vs| ==> Convert(scalars, values[i], expected[i]) == Ok(vs[i])
            case Err(e) => FirstError(scalars, values, expected, e)
    decreases |values|
  {
    if values == [] || expected == [] {
    } else {
      ConvertAllMeaning(scalars, values[1..], expected[1..]);
      match Convert(scalars, values[0], expected[0])
      case Err(e) =>
        assert Convert(scalars, values[0], expected[0]) == Err(e);
      case Ok(v) =>
        match ConvertAll(scalars, values[1..], expected[1..])
        case Err(e) =>
          var k :| 0 <= k < Zipped(values[1..], expected[1..])
            && Convert(scalars, values[1..][k], expected[1..][k]) == Err(e)
            && forall i :: 0 <= i < k ==> Convert(scalars, values[1..][i], expected[1..][i]).Ok?;
          forall i | 0 <= i < k + 1 ensures Convert(scalars, values[i], expected[i]).Ok? {
            if i > 0 {
              assert values[i] == values[1..][i - 1] && expected[i] == expected[1..][i - 1];
            }
          }
          assert Convert(scalars, values[k + 1], expected[k + 1]) == Err(e);
        case Ok(vs) =>
          forall i | 0 <= i < |vs| + 1 ensures Convert(scalars, values[i], expected[i]) == Ok(([v] + vs)[i]) {
            if i > 0 {
              assert values[i] == values[1..][i - 1] && expected[i] == expected[1..][i - 1];
            }
          }
    }
  }

  /** The reply of a transaction of `|expected|` commands: nil when it was aborted; a bare value is
      accepted from a single command only. */
  function TransactionValues(scalars: Scalars, reply: Value, expected: seq<Option<ExpectedType>>)
    : Result<Value, ReplyError>
  {
    if reply.Nil? then Ok(Nil)
    else if !reply.Array? && |expected| + 1 != 2 then Err(NotATransaction(reply))
    else
      match ConvertAll(scalars, if reply.Array? then reply.items else [reply], expected)
      case Err(e) => Err(e)
      case Ok(vs) => Ok(Array(vs))
  }

  /** As long as the replies convert in the newer protocol, the older one gives the same values
      exactly when they are all alike. */
  lemma {:induction false} ConvertAllShapes(scalars: Scalars, values: seq<Value>, expected: seq<Option<ExpectedType>>)
    ensures (forall i :: 0 <= i < Zipped(values, expected) ==> Alike(scalars, values[i], expected[i])) ==>
              ConvertAll(scalars, Resp2All(scalars, values), expected) == ConvertAll(scalars, values, expected)
    ensures ConvertAll(scalars, values, expected).Ok? &&
            ConvertAll(scalars, Resp2All(scalars, values), expected) == ConvertAll(scalars, values, expected) ==>
              forall i :: 0 <= i < Zipped(values, expected) ==> Alike(scalars, values[i], expected[i])
    decreases |values|
  {
    if values == [] || expected == [] {
    } else {
      var rest, types := values[1..], expected[1..];
      ShapesConvertAlike(scalars, values[0], expected[0]);
      assert Resp2All(scalars, values)[1..] == Resp2All(scalars, rest);
      ConvertAllShapes(scalars, rest, types);
      assert forall i :: 0 <= i < Zipped(rest, types) ==> rest[i] == values[i + 1] && types[i] == expected[i + 1];
      if ConvertAll(scalars, values, expected).Ok? &&
         ConvertAll(scalars, Resp2All(scalars, values), expected) == ConvertAll(scalars, values, expected)
      {
        FirstAndRest(scalars, values, expected);
        FirstAndRest(scalars, Resp2All(scalars, values), expected);
        forall i | 0 <= i < Zipped(values, expected) ensures Alike(scalars, values[i], expected[i]) {
          if i > 0 {
            assert Alike(scalars, rest[i - 1], types[i - 1]);
          }
        }
      }
    }
  }

  lemma FirstAndRest(scalars: Scalars, values: seq<Value>, expected: seq<Option<ExpectedType>>)
    requires values != [] && expected != [] && ConvertAll(scalars, values, expected).Ok?
    ensures var all := ConvertAll(scalars, values, expected).value;
            && all != [] && Convert(scalars, values[0], expected[0]) == Ok(all[0])
            && ConvertAll(scalars, values[1..], expected[1..]) == Ok(all[1..])
  {
  }

  /** An aborted transaction answers nil. Otherwise the answer is the list of the converted replies,
      position by position, or the error of the earliest that does not convert; a bare reply counts as
      a list of one, from a single command only. */
  lemma TransactionMeaning(scalars: Scalars, reply: Value, expected: seq<Option<ExpectedType>>)
    ensures var r := TransactionValues(scalars, reply, expected);
            var replies := if reply.Array? then reply.items else [reply];
            && (reply.Nil? ==> r == Ok(Nil))
            && (!reply.Nil? && !reply.Array? && |expected| != 1 ==> r == Err(NotATransaction(reply)))
            && (!reply.Nil? && (reply.Array? || |expected| == 1) ==>
                  if r.Ok? then
                    && r.value.Array? && |r.value.items| == Zipped(replies, expected)
                    && forall i :: 0 <= i < |r.value.items| ==>
                         Convert(scalars, replies[i], expected[i]) == Ok(r.value.items[i])
                  else FirstError(scalars, replies, expected, r.error))
  {
    ConvertAllMeaning(scalars, if reply.Array? then reply.items else [reply], expected);
  }

  /** The replies of a transaction are alike. A bare reply is one that is accepted from a single
      command only; a bare map or set would itself be taken for a list of replies. */
  predicate TransactionAlike(scalars: Scalars, reply: Value, expected: seq<Option<ExpectedType>>) {
    match reply
    case Array(items) => forall i :: 0 <= i < Zipped(items, expected) ==> Alike(scalars, items[i], expected[i])
    case Map(_) => false
    case Set(_) => false
    case _ => if |expected| == 1 then Alike(scalars, reply, expected[0]) else Plain(reply)
  }

  /** A transaction of alike replies gives the same result or error in both protocol versions; one
      that succeeds gives the same result only if its replies are alike, a bare map or set apart. */
  lemma TransactionShapes(scalars: Scalars, reply: Value, expected: seq<Option<ExpectedType>>)
    ensures var newer, older := TransactionValues(scalars, reply, expected),
                                TransactionValues(scalars, Resp2(scalars, reply), expected);
            && (TransactionAlike(scalars, reply, expected) ==> older == newer)
            && (newer.Ok? && older == newer && !reply.Map? && !reply.Set? ==> TransactionAlike(scalars, reply, expected))
  {
    if reply.Array? {
      assert Resp2(scalars, reply) == Array(Resp2All(scalars, reply.items));
      ConvertAllShapes(scalars, reply.items, expected);
    } else if !reply.Map? && !reply.Set? {
      BareShapes(scalars, reply, expected);
    }
  }

  lemma BareShapes(scalars: Scalars, reply: Value, expected: seq<Option<ExpectedType>>)
    requires IsScalar(reply)
    ensures var newer, older := TransactionValues(scalars, reply, expected),
                                TransactionValues(scalars, Resp2(scalars, reply), expected);
            && (TransactionAlike(scalars, reply, expected) ==> older == newer)
            && (newer.Ok? && older == newer ==> TransactionAlike(scalars, reply, expected))
  {
    PlainLooksTheSame(scalars, reply);
    ConvertAllShapes(scalars, [reply], expected);
    assert Resp2All(scalars, [reply]) == [Resp2(scalars, reply)];
    if |expected| == 1 {
      assert Zipped([reply], expected) == 1 && [reply][0] == reply;
    }
  }

  /** A flat map with a key too many fails the transaction, unless an earlier reply already has. */
  lemma OddMapFailsTransaction(scalars: Scalars, replies: seq<Value>, expected: seq<Option<ExpectedType>>, odd: nat)
    requires odd < Zipped(replies, expected)
    requires expected[odd] == Some(AsMap) && replies[odd].Array? && |replies[odd].items| % 2 == 1
    ensures var r := TransactionValues(scalars, Array(replies), expected);
            && r.Err?
            && FirstError(scalars, replies, expected, r.error)
            && ((forall i :: 0 <= i < odd ==> Convert(scalars, replies[i], expected[i]).Ok?) ==> r == Err(OddItems))
  {
    ConvertAllMeaning(scalars, replies, expected);
    assert Convert(scalars, replies[odd], expected[odd]) == Err(OddItems);
  }
}
