/** The JSON parity check of internal/observability/rollout_shadow.go.

    `ValuesEqual` follows the recursion of the Go code: numbers are compared as rationals,
    arrays position by position, objects by their number of keys and by looking up every
    left key on the right. `Canon` is the reference: it maps a value to numbers as numbers
    and objects as finite maps. Go's `big.Rat.SetString` is the parameter `rat`, which may
    reject a number. */
module ShadowParity {
  import opened Options

  datatype Value =
    | Null
    | Bool(b: bool)
    | Str(s: string)
    | Num(literal: string)
    | Arr(elems: seq<Value>)
    | Obj(fields: map<string, Value>)

  datatype Canonical =
    | CNull
    | CBool(b: bool)
    | CStr(s: string)
    | CNum(n: real)
    | CArr(elems: seq<Canonical>)
    | CObj(fields: map<string, Canonical>)

  type Rat = string -> Option<real>

  // ----- The reference

  /** Every number inside the value is accepted. */
  predicate Accepted(rat: Rat, v: Value)
    decreases v
  {
    match v
    case Num(literal) => rat(literal).Some?
    case Arr(elems) => forall i :: 0 <= i < |elems| ==> Accepted(rat, elems[i])
    case Obj(fields) => forall k :: k in fields ==> Accepted(rat, fields[k])
    case _ => true
  }

  function Canon(rat: Rat, v: Value): Canonical
    requires Accepted(rat, v)
    decreases v
  {
    match v
    case Null => CNull
    case Bool(b) => CBool(b)
    case Str(s) => CStr(s)
    case Num(literal) => CNum(rat(literal).value)
    case Arr(elems) => CArr(seq(|elems|, i requires 0 <= i < |elems| => Canon(rat, elems[i])))
    case Obj(fields) => CObj(map k | k in fields :: Canon(rat, fields[k]))
  }

  // ----- The code's recursion

  predicate ValuesEqual(rat: Rat, left: Value, right: Value)
    decreases left
  {
    if left.Num? || right.Num? then
      && left.Num? && right.Num?
      && rat(left.literal).Some? && rat(right.literal).Some?
      && rat(left.literal).value == rat(right.literal).value
    else
      match left
      case Arr(elems) =>
        && right.Arr? && |elems| == |right.elems|
        && forall i :: 0 <= i < |elems| ==> ValuesEqual(rat, elems[i], right.elems[i])
      case Obj(fields) =>
        && right.Obj? && |fields| == |right.fields|
        && forall k :: k in fields ==> k in right.fields && ValuesEqual(rat, fields[k], right.fields[k])
      case _ => left == right
  }

  /** `shadowValuesEqual`, with its loops. A map is visited in an arbitrary order. */
  method ShadowValuesEqual(rat: Rat, left: Value, right: Value) returns (equal: bool)
    ensures equal == ValuesEqual(rat, left, right)
    decreases left
  {
    if left.Num? || right.Num? {
      if !left.Num? || !right.Num? { return false; }
      var l, r := rat(left.literal), rat(right.literal);
      return l.Some? && r.Some? && l.value == r.value;
    }
    match left
    case Arr(elems) =>
      if !right.Arr? || |elems| != |right.elems| { return false; }
      for index := 0 to |elems|
        invariant forall i :: 0 <= i < index ==> ValuesEqual(rat, elems[i], right.elems[i])
      {
        var same := ShadowValuesEqual(rat, elems[index], right.elems[index]);
        if !same { return false; }
      }
      return true;
    case Obj(fields) =>
      if !right.Obj? || |fields| != |right.fields| { return false; }
      var keys := fields.Keys;
      while keys != {}
        invariant keys <= fields.Keys
        invariant forall k :: k in fields && k !in keys ==> k in right.fields && ValuesEqual(rat, fields[k], right.fields[k])
        decreases |keys|
      {
        var key :| key in keys;
        if key !in right.fields { return false; }
        var same := ShadowValuesEqual(rat, fields[key], right.fields[key]);
        if !same { return false; }
        keys := keys - {key};
      }
      return true;
    case _ =>
      return left == right;
  }

  // ----- The two agree

  /** A set inside another of the same size is that set. */
  lemma {:induction false} SameSizeSubset(a: set<string>, b: set<string>)
    requires a <= b && |a| == |b|
    ensures a == b
  {
    if a != {} {
      var x :| x in a;
      SameSizeSubset(a - {x}, b - {x});
    }
  }

  ghost predicate SameCanon(rat: Rat, left: Value, right: Value) {
    Accepted(rat, left) && Accepted(rat, right) && Canon(rat, left) == Canon(rat, right)
  }

  /** Main result: the code's comparison holds exactly when every number is accepted on both
      sides and the canonical forms are the same. */
  lemma {:induction false} EqualIsCanonical(rat: Rat, left: Value, right: Value)
    ensures ValuesEqual(rat, left, right) <==> SameCanon(rat, left, right)
    decreases left
  {
    match left
    case Arr(elems) =>
      if right.Arr? {
        forall i | 0 <= i < |elems| && i < |right.elems|
          ensures ValuesEqual(rat, elems[i], right.elems[i]) <==> SameCanon(rat, elems[i], right.elems[i])
        {
          EqualIsCanonical(rat, elems[i], right.elems[i]);
        }
        ArraysAgree(rat, left, right);
      }
    case Obj(fields) =>
      if right.Obj? {
        forall k | k in fields && k in right.fields
          ensures ValuesEqual(rat, fields[k], right.fields[k]) <==> SameCanon(rat, fields[k], right.fields[k])
        {
          EqualIsCanonical(rat, fields[k], right.fields[k]);
        }
        ObjectsAgree(rat, left, right);
      }
    case _ =>
  }

  lemma CanonOfArray(rat: Rat, v: Value)
    requires v.Arr? && Accepted(rat, v)
    ensures var c := Canon(rat, v);
            && c.CArr? && |c.elems| == |v.elems|
            && forall i :: 0 <= i < |v.elems| ==> Accepted(rat, v.elems[i]) && c.elems[i] == Canon(rat, v.elems[i])
  {}

  lemma ArraysAgree(rat: Rat, left: Value, right: Value)
    requires left.Arr? && right.Arr?
    ensures SameCanon(rat, left, right)
       <==> && |left.elems| == |right.elems|
            && forall i :: 0 <= i < |left.elems| ==> SameCanon(rat, left.elems[i], right.elems[i])
  {
    if Accepted(rat, left) && Accepted(rat, right) {
      CanonOfArray(rat, left);
      CanonOfArray(rat, right);
      var l, r := Canon(rat, left).elems, Canon(rat, right).elems;
      if SameCanon(rat, left, right) {
        forall i | 0 <= i < |left.elems| ensures SameCanon(rat, left.elems[i], right.elems[i]) {
          assert l[i] == r[i];
        }
      } else if |l| == |r| {
        var i :| 0 <= i < |l| && l[i] != r[i];
        assert !SameCanon(rat, left.elems[i], right.elems[i]);
      }
    }
  }

  lemma ObjectsAgree(rat: Rat, left: Value, right: Value)
    requires left.Obj? && right.Obj?
    ensures SameCanon(rat, left, right)
       <==> && |left.fields| == |right.fields|
            && forall k :: k in left.fields ==> k in right.fields && SameCanon(rat, left.fields[k], right.fields[k])
  {
    if SameCanon(rat, left, right) {
      var l, r := Canon(rat, left).fields, Canon(rat, right).fields;
      assert l.Keys == left.fields.Keys && r.Keys == right.fields.Keys;
      assert forall k :: k in left.fields ==> l[k] == r[k];
    }
    if && |left.fields| == |right.fields|
       && forall k :: k in left.fields ==> k in right.fields && SameCanon(rat, left.fields[k], right.fields[k])
    {
      SameSizeSubset(left.fields.Keys, right.fields.Keys);
    }
  }

  /** On values whose numbers are accepted the comparison is an equivalence relation; a value
      equals itself exactly when its numbers are accepted. */
  lemma EqualIsEquivalence(rat: Rat, a: Value, b: Value, c: Value)
    ensures ValuesEqual(rat, a, a) <==> Accepted(rat, a)
    ensures ValuesEqual(rat, a, b) ==> ValuesEqual(rat, b, a)
    ensures ValuesEqual(rat, a, b) && ValuesEqual(rat, b, c) ==> ValuesEqual(rat, a, c)
  {
    EqualIsCanonical(rat, a, a);
    EqualIsCanonical(rat, a, b);
    EqualIsCanonical(rat, b, a);
    EqualIsCanonical(rat, b, c);
    EqualIsCanonical(rat, a, c);
  }

  // ----- The check around it

  /** `decodeShadowJSON`: a blank payload is null; anything else is what the JSON decoder makes
      of the whole payload, if it is exactly one value. */
  function Decode(parse: string -> Option<Value>, isSpace: char -> bool, payload: string): Option<Value> {
    if forall i :: 0 <= i < |payload| ==> isSpace(payload[i]) then Some(Null) else parse(payload)
  }

  /** A blank payload counts as `null`, so it agrees with another one and with whatever parses to `null`. */
  lemma BlankIsNull(parse: string -> Option<Value>, isSpace: char -> bool, blank: string, payload: string)
    requires forall i :: 0 <= i < |blank| ==> isSpace(blank[i])
    ensures Decode(parse, isSpace, blank) == Some(Null)
    ensures (exists i :: 0 <= i < |payload| && !isSpace(payload[i])) ==> Decode(parse, isSpace, payload) == parse(payload)
  {}

  class ParityMonitor {
    var mismatches: nat

    constructor ()
      ensures mismatches == 0
    {
      mismatches := 0;
    }

    /** `LogShadowParity`: the counter moves exactly when the two sides do not have the same
        canonical form. */
    method LogShadowParity(parse: string -> Option<Value>, isSpace: char -> bool, rat: Rat,
                           outbox: string, postgres: string)
      returns (parity: bool)
      modifies this
      ensures var l, r := Decode(parse, isSpace, outbox), Decode(parse, isSpace, postgres);
              parity <==> l.Some? && r.Some? && SameCanon(rat, l.value, r.value)
      ensures mismatches == old(mismatches) + if parity then 0 else 1
    {
      var l, r := Decode(parse, isSpace, outbox), Decode(parse, isSpace, postgres);
      parity := false;
      if l.Some? && r.Some? {
        parity := ShadowValuesEqual(rat, l.value, r.value);
        EqualIsCanonical(rat, l.value, r.value);
      }
      if !parity { mismatches := mismatches + 1; }
    }
  }
}
