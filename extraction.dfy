/** The instruction extractor of spike_to_pygame.py: dotted call names,
    per-function call extraction, classification of each call into one typed
    instruction record, and grouping of the records by source function.
    The syntax tree arrives already walked: a module is its top-level
    statements, a function its call expressions in walk order, and every
    argument already literal-evaluated (None when it is not a literal). */
module Extraction {
  import opened Values
  import opened Helpers

  // ---------------- wheel geometry ----------------

  /** math.pi, as the decimal that rounds to the double Python uses. */
  const PI: real := 3.141592653589793

  /** `deg_to_mm(deg, wheel_radius_mm)`: wheel rotation to distance rolled. */
  function DegToMm(deg: real, wheelRadius: real): (mm: real)
    ensures wheelRadius > 0.0 ==> (mm > 0.0 <==> deg > 0.0) && (mm < 0.0 <==> deg < 0.0)
    ensures deg == 0.0 || wheelRadius == 0.0 ==> mm == 0.0
  {
    deg * (2.0 * PI * wheelRadius / 360.0)
  }

  /** Rolled distance is linear in the wheel rotation. */
  lemma DegToMmLinear(a: real, b: real, k: real, wheelRadius: real)
    ensures DegToMm(a + b, wheelRadius) == DegToMm(a, wheelRadius) + DegToMm(b, wheelRadius)
    ensures DegToMm(k * a, wheelRadius) == k * DegToMm(a, wheelRadius)
  {
  }

  /** One full wheel turn rolls one circumference. */
  lemma DegToMmFullTurn(wheelRadius: real)
    ensures DegToMm(360.0, wheelRadius) == 2.0 * PI * wheelRadius
  {
  }

  // ---------------- call names ----------------

  /** The function part of a call: a name, an attribute access, or anything else. */
  datatype Expr = Name(id: string) | Attribute(value: Expr, attr: string) | OtherExpr

  /** The components of a Name/Attribute chain, root first; a chain whose root
      is not a Name contributes only its attributes. */
  function AttrPath(e: Expr): seq<string>
  {
    match e
    case Name(id) => [id]
    case Attribute(v, a) => AttrPath(v) + [a]
    case OtherExpr => []
  }

  /** `".".join(parts)`. */
  function Join(parts: seq<string>): string
  {
    if |parts| == 0 then "" else if |parts| == 1 then parts[0] else parts[0] + "." + Join(parts[1..])
  }

  lemma {:induction false} JoinSnoc(parts: seq<string>, last: string)
    requires parts != []
    ensures Join(parts + [last]) == Join(parts) + "." + last
  {
    if |parts| == 1 {
      assert parts + [last] == [parts[0], last];
    } else {
      assert (parts + [last])[1..] == parts[1..] + [last];
      JoinSnoc(parts[1..], last);
    }
  }

  /** The dotted name `node_name` gives a call's function part. */
  function DottedName(e: Expr): (r: Option<string>)
    ensures e.Name? ==> r == Some(e.id)
    ensures e.OtherExpr? <==> r.None?
  {
    match e
    case Name(id) => Some(id)
    case Attribute(_, _) => Some(Join(AttrPath(e)))
    case OtherExpr => None
  }

  /** An attribute on a named chain extends the chain's dotted name by one
      component: `motor.run` from `motor`, `hub.motor.run` from `hub.motor`. */
  lemma DottedNameAttribute(v: Expr, a: string)
    requires v.Name? || v.Attribute?
    ensures DottedName(Attribute(v, a)) == Some(DottedName(v).value + "." + a)
  {
    AttrPathNonEmpty(v);
    JoinSnoc(AttrPath(v), a);
    if v.Name? {
      assert Join(AttrPath(v)) == v.id;
    }
  }

  lemma {:induction false} AttrPathNonEmpty(v: Expr)
    requires v.Name? || v.Attribute?
    ensures AttrPath(v) != []
  {
  }

  function Reverse(s: seq<string>): seq<string>
  {
    if s == [] then [] else Reverse(s[1..]) + [s[0]]
  }

  lemma {:induction false} ReverseSnoc(s: seq<string>, x: string)
    ensures Reverse(s + [x]) == [x] + Reverse(s)
  {
    if s == [] {
      assert Reverse([x]) == Reverse([x][1..]) + [x];
    } else {
      assert (s + [x])[1..] == s[1..] + [x];
      ReverseSnoc(s[1..], x);
    }
  }

  /** `node_name(n)`: walk down the attribute chain collecting attributes,
      then the root name, and join them in reverse (root-first) order. */
  method NodeName(n: Expr) returns (r: Option<string>)
    ensures r == DottedName(n)
  {
    if n.Name? {
      return Some(n.id);
    }
    if n.Attribute? {
      var parts: seq<string> := [];
      var cur := n;
      while cur.Attribute?
        invariant AttrPath(n) == AttrPath(cur) + Reverse(parts)
        decreases cur
      {
        ReverseSnoc(parts, cur.attr);
        parts := parts + [cur.attr];
        cur := cur.value;
      }
      if cur.Name? {
        assert AttrPath(cur) == [cur.id];
        ReverseSnoc(parts, cur.id);
        parts := parts + [cur.id];
      } else {
        assert AttrPath(cur) == [];
      }
      assert Reverse(parts) == AttrPath(n);
      return Some(Join(Reverse(parts)));
    }
    return None;
  }

  // ---------------- call extraction ----------------

  datatype Keyword = Keyword(arg: string, value: Option<Value>)

  /** A call expression: function part, literal-evaluated positional and
      keyword arguments, and source line. */
  datatype CallNode = CallNode(func: Expr, args: seq<Option<Value>>, keywords: seq<Keyword>, lineno: nat)

  /** A top-level statement of the parsed module. */
  datatype Stmt = FunctionDef(name: string, body: seq<CallNode>) | OtherStmt

  /** The tuple (name, pos, kw, lineno) extract_calls_from_func records. */
  datatype Call = Call(name: string, pos: seq<Option<Value>>, kw: map<string, Option<Value>>, lineno: nat)

  /** The keyword dict, filled in argument order. */
  function KeywordsOf(ks: seq<Keyword>): (kw: map<string, Option<Value>>)
    ensures |kw| <= |ks|
    ensures ks != [] ==> |kw| > 0
  {
    if ks == [] then map[] else KeywordsOf(ks[..|ks| - 1])[ks[|ks| - 1].arg := ks[|ks| - 1].value]
  }

  /** The dict holds exactly the keyword names given. */
  lemma {:induction false} KeywordsOfKeys(ks: seq<Keyword>)
    ensures forall a :: a in KeywordsOf(ks) <==> exists i :: 0 <= i < |ks| && ks[i].arg == a
  {
    if ks != [] {
      var init := ks[..|ks| - 1];
      KeywordsOfKeys(init);
      forall a | a in KeywordsOf(init) ensures exists i :: 0 <= i < |ks| && ks[i].arg == a {
        var i :| 0 <= i < |init| && init[i].arg == a;
        assert ks[i].arg == a;
      }
      forall a | exists i :: 0 <= i < |ks| && ks[i].arg == a ensures a in KeywordsOf(ks) {
        var i :| 0 <= i < |ks| && ks[i].arg == a;
        if i < |init| {
          assert init[i].arg == a;
        }
      }
    }
  }

  /** Each name maps to the value of its last occurrence: a later keyword of
      the same name wins. */
  lemma {:induction false} KeywordsOfLastWins(ks: seq<Keyword>, i: nat)
    requires i < |ks|
    requires forall j :: i < j < |ks| ==> ks[j].arg != ks[i].arg
    ensures ks[i].arg in KeywordsOf(ks) && KeywordsOf(ks)[ks[i].arg] == ks[i].value
  {
    if i < |ks| - 1 {
      var init := ks[..|ks| - 1];
      assert init[i] == ks[i];
      KeywordsOfLastWins(init, i);
    }
  }

  /** The record for one call node, or None when it has no dotted name. */
  function CallOf(n: CallNode): (r: Option<Call>)
    ensures r.Some? <==> DottedName(n.func).Some?
    ensures r.Some? ==> r.value.pos == n.args && r.value.lineno == n.lineno && |r.value.kw| <= |n.keywords|
    ensures r.Some? ==> r.value.name == DottedName(n.func).value && r.value.kw == KeywordsOf(n.keywords)
  {
    match DottedName(n.func)
    case None => None
    case Some(name) => Some(Call(name, n.args, KeywordsOf(n.keywords), n.lineno))
  }

  /** The calls of a function, in walk order, nameless ones dropped. */
  function ExtractedCalls(nodes: seq<CallNode>): (calls: seq<Call>)
    ensures |calls| <= |nodes|
  {
    if nodes == [] then []
    else
      var init := ExtractedCalls(nodes[..|nodes| - 1]);
      match CallOf(nodes[|nodes| - 1])
      case None => init
      case Some(c) => init + [c]
  }

  /** Every extracted call comes from a named node of the function, and only
      nameless nodes are dropped. */
  lemma {:induction false} ExtractedCallsFromNodes(nodes: seq<CallNode>)
    ensures |ExtractedCalls(nodes)| <= |nodes|
    ensures (forall i :: 0 <= i < |nodes| ==> CallOf(nodes[i]).Some?) ==> |ExtractedCalls(nodes)| == |nodes|
    ensures forall c :: c in ExtractedCalls(nodes) ==> exists n :: n in nodes && CallOf(n) == Some(c)
    ensures forall i :: 0 <= i < |nodes| && CallOf(nodes[i]).Some? ==> CallOf(nodes[i]).value in ExtractedCalls(nodes)
  {
    if nodes != [] {
      var init := nodes[..|nodes| - 1];
      ExtractedCallsFromNodes(init);
      forall i | 0 <= i < |nodes| && CallOf(nodes[i]).Some?
        ensures CallOf(nodes[i]).value in ExtractedCalls(nodes)
      {
        if i < |init| {
          assert init[i] == nodes[i];
        }
      }
      forall c | c in ExtractedCalls(nodes) ensures exists n :: n in nodes && CallOf(n) == Some(c) {
        if c in ExtractedCalls(init) {
          var n :| n in init && CallOf(n) == Some(c);
          assert n in nodes;
        } else {
          assert CallOf(nodes[|nodes| - 1]) == Some(c);
        }
      }
      if forall i :: 0 <= i < |nodes| ==> CallOf(nodes[i]).Some? {
        assert forall i :: 0 <= i < |init| ==> CallOf(init[i]).Some? by {
          forall i | 0 <= i < |init| ensures CallOf(init[i]).Some? {
            assert init[i] == nodes[i];
          }
        }
      }
    }
  }

  /** Extraction keeps walk order: the calls of two stretches of nodes are the
      calls of the first followed by the calls of the second. */
  lemma {:induction false} ExtractedCallsAppend(a: seq<CallNode>, b: seq<CallNode>)
    ensures ExtractedCalls(a + b) == ExtractedCalls(a) + ExtractedCalls(b)
  {
    if b == [] {
      assert a + b == a;
    } else {
      var init := b[..|b| - 1];
      assert (a + b)[..|a + b| - 1] == a + init;
      ExtractedCallsAppend(a, init);
    }
  }

  /** `extract_calls_from_func`: record every named call with its positional
      values and its keyword dict. */
  method ExtractCalls(nodes: seq<CallNode>) returns (calls: seq<Call>)
    ensures calls == ExtractedCalls(nodes)
  {
    calls := [];
    var i := 0;
    while i < |nodes|
      invariant 0 <= i <= |nodes|
      invariant calls == ExtractedCalls(nodes[..i])
    {
      var node := nodes[i];
      assert nodes[..i + 1][..i] == nodes[..i];
      var name := NodeName(node.func);
      if name.Some? {
        var kw: map<string, Option<Value>> := map[];
        var j := 0;
        while j < |node.keywords|
          invariant 0 <= j <= |node.keywords|
          invariant kw == KeywordsOf(node.keywords[..j])
        {
          assert node.keywords[..j + 1][..j] == node.keywords[..j];
          kw := kw[node.keywords[j].arg := node.keywords[j].value];
          j := j + 1;
        }
        assert node.keywords[..j] == node.keywords;
        calls := calls + [Call(name.value, node.args, kw, node.lineno)];
      }
      i := i + 1;
    }
    assert nodes[..i] == nodes;
  }

  // ---------------- classification ----------------

  predicate EndsWith(s: string, suffix: string)
  {
    |suffix| <= |s| && s[|s| - |suffix|..] == suffix
  }

  /** A typed instruction record; the derived mm/px fields are computed from
      the degree fields with the wheel radius and pixel scale. */
  datatype Instruction =
    | GyroFollow(heading: Option<Value>, gain: Option<Value>, speed: Option<Value>,
                 distanceDeg: Option<Value>, distanceMm: Option<real>, distancePx: Option<real>,
                 condition: Option<Value>)
    | GyroTurn(steering: Option<Value>, heading: Option<Value>, speed: Option<Value>)
    | MotorRunForDegrees(port: Option<Value>, degrees: Option<Value>, mm: Option<real>, speed: Option<Value>)
    | MotorRunToRel(port: Option<Value>, positionDeg: Option<Value>, positionMm: Option<real>)
    | MotorPairMoveForDegrees(steering: Option<Value>, degrees: Option<Value>, mm: Option<real>)
    | RawCall(argsPos: seq<Option<Value>>, argsKw: map<string, Option<Value>>)

  /** `float()` of a degree field raised while the record was derived. */
  datatype ParseError = NotANumber(lineno: nat, value: Value)

  /** `entry`: the record of one call of a `*_main` function. */
  datatype Entry = Entry(sourceFunc: string, lineno: nat, call: string, instr: Instruction)

  /** `kw.get(key, default)`: a keyword present wins, even when its value is None. */
  function KwGet(kw: map<string, Option<Value>>, key: string, default: Option<Value>): (v: Option<Value>)
    ensures key in kw ==> v == kw[key]
    ensures key !in kw ==> v == default
  {
    if key in kw then kw[key] else default
  }

  /** `pos[i] if len(pos) > i else None`. */
  function PosAt(pos: seq<Option<Value>>, i: nat): Option<Value>
  {
    if |pos| > i then pos[i] else None
  }

  /** `None if deg is None else deg_to_mm(float(deg), r)`. */
  function MmOf(deg: Option<Value>, wheelRadius: real, lineno: nat): (r: Result<Option<real>, ParseError>)
    ensures deg.None? ==> r == Success(None)
    ensures deg.Some? && FloatOf(deg.value).Some? ==> r == Success(Some(DegToMm(FloatOf(deg.value).value, wheelRadius)))
    ensures deg.Some? && FloatOf(deg.value).None? ==> r == Failure(NotANumber(lineno, deg.value))
  {
    match deg
    case None => Success(None)
    case Some(v) =>
      match FloatOf(v)
      case None => Failure(NotANumber(lineno, v))
      case Some(d) => Success(Some(DegToMm(d, wheelRadius)))
  }

  /** The instruction kinds, in the order the suffixes are tried. */
  datatype Kind = FollowKind | TurnKind | RunForDegreesKind | RunToRelKind | MoveForDegreesKind | CallKind

  function KindOf(name: string): (k: Kind)
    // the kind names a suffix the name ends with, and no earlier suffix matched
    ensures k == FollowKind ==> EndsWith(name, "gyro_follow")
    ensures k == TurnKind ==> EndsWith(name, "gyro_turn") && !EndsWith(name, "gyro_follow")
    ensures k == RunForDegreesKind ==>
              EndsWith(name, "run_for_degrees") && !EndsWith(name, "gyro_follow") && !EndsWith(name, "gyro_turn")
    ensures k == RunToRelKind ==>
              EndsWith(name, "run_to_relative_position") &&
              !EndsWith(name, "gyro_follow") && !EndsWith(name, "gyro_turn") && !EndsWith(name, "run_for_degrees")
    ensures k == MoveForDegreesKind ==>
              EndsWith(name, "move_for_degrees") &&
              !EndsWith(name, "gyro_follow") && !EndsWith(name, "gyro_turn") &&
              !EndsWith(name, "run_for_degrees") && !EndsWith(name, "run_to_relative_position")
  {
    // a name equal to a suffix ends with it, so the source's extra `==` tests
    // (and its repeated run_for_degrees test) change nothing
    if EndsWith(name, "gyro_follow") then FollowKind
    else if EndsWith(name, "gyro_turn") then TurnKind
    else if EndsWith(name, "run_for_degrees") then RunForDegreesKind
    else if EndsWith(name, "run_to_relative_position") then RunToRelKind
    else if EndsWith(name, "move_for_degrees") then MoveForDegreesKind
    else CallKind
  }

  function KindOfInstruction(ins: Instruction): Kind
  {
    match ins
    case GyroFollow(_, _, _, _, _, _, _) => FollowKind
    case GyroTurn(_, _, _) => TurnKind
    case MotorRunForDegrees(_, _, _, _) => RunForDegreesKind
    case MotorRunToRel(_, _, _) => RunToRelKind
    case MotorPairMoveForDegrees(_, _, _) => MoveForDegreesKind
    case RawCall(_, _) => CallKind
  }

  /** The degree field of a call of each kind, read as its record reads it:
      the one field whose `float()` conversion can fail. */
  function DegreeField(c: Call): Option<Value>
  {
    match KindOf(c.name)
    case FollowKind => KwGet(c.kw, "distance", None)
    case RunForDegreesKind => KwGet(c.kw, "degrees", if |c.pos| >= 2 then c.pos[1] else None)
    case RunToRelKind => KwGet(c.kw, "position", PosAt(c.pos, 1))
    case MoveForDegreesKind => KwGet(c.kw, "degrees", if |c.pos| >= 2 then c.pos[1] else None)
    case _ => None
  }

  /** The classification body of `parse_spike_file` for one call. */
  function Classify(c: Call, wheelRadius: real, pixelScale: real): (r: Result<Instruction, ParseError>)
    // the kind follows the first matching suffix; unmatched calls keep their raw arguments
    ensures r.Success? ==> KindOfInstruction(r.value) == KindOf(c.name)
    ensures KindOf(c.name) == CallKind ==> r == Success(RawCall(c.pos, c.kw))
    ensures KindOf(c.name) == TurnKind ==> r.Success?
    // keyword values override positional ones
    ensures r.Success? && r.value.GyroFollow? ==> r.value.heading == KwGet(c.kw, "heading", PosAt(c.pos, 0))
    ensures r.Success? && r.value.GyroTurn? ==> r.value.steering == KwGet(c.kw, "steering", PosAt(c.pos, 0))
    ensures r.Success? && r.value.MotorRunForDegrees? ==>
              r.value.port == (if |c.pos| >= 2 then c.pos[0] else None) &&
              r.value.degrees == KwGet(c.kw, "degrees", if |c.pos| >= 2 then c.pos[1] else None) &&
              r.value.speed == KwGet(c.kw, "speed", if |c.pos| >= 3 then c.pos[2] else None)
    ensures r.Success? && r.value.MotorRunToRel? ==>
              r.value.port == PosAt(c.pos, 0) && r.value.positionDeg == KwGet(c.kw, "position", PosAt(c.pos, 1))
    ensures r.Success? && r.value.MotorPairMoveForDegrees? ==>
              r.value.steering == KwGet(c.kw, "steering", if |c.pos| >= 2 then c.pos[0] else None) &&
              r.value.degrees == KwGet(c.kw, "degrees", if |c.pos| >= 2 then c.pos[1] else None)
    // each derived field is None exactly when its degree field is
    ensures r.Success? && r.value.GyroFollow? ==>
              (r.value.distanceMm.None? <==> r.value.distanceDeg.None?) &&
              (r.value.distancePx.None? <==> r.value.distanceDeg.None?) &&
              (r.value.distanceMm.Some? ==> r.value.distancePx.value == r.value.distanceMm.value * pixelScale)
    ensures r.Success? && r.value.MotorRunForDegrees? ==> (r.value.mm.None? <==> r.value.degrees.None?)
    ensures r.Success? && r.value.MotorRunToRel? ==> (r.value.positionMm.None? <==> r.value.positionDeg.None?)
    ensures r.Success? && r.value.MotorPairMoveForDegrees? ==> (r.value.mm.None? <==> r.value.degrees.None?)
    // keyword-only fields
    ensures r.Success? && r.value.GyroFollow? ==>
              r.value.gain == KwGet(c.kw, "gain", None) && r.value.speed == KwGet(c.kw, "speed", None) &&
              r.value.distanceDeg == KwGet(c.kw, "distance", None) &&
              r.value.condition == KwGet(c.kw, "condition", None)
    ensures r.Success? && r.value.GyroTurn? ==>
              r.value.heading == KwGet(c.kw, "heading", None) && r.value.speed == KwGet(c.kw, "speed", None)
    // the derived values: millimetres by the wheel radius, pixels by the pixel scale
    ensures r.Success? && r.value.GyroFollow? && r.value.distanceDeg.Some? ==>
              FloatOf(r.value.distanceDeg.value).Some? &&
              r.value.distanceMm == Some(DegToMm(FloatOf(r.value.distanceDeg.value).value, wheelRadius))
    ensures r.Success? && r.value.MotorRunForDegrees? && r.value.degrees.Some? ==>
              FloatOf(r.value.degrees.value).Some? &&
              r.value.mm == Some(DegToMm(FloatOf(r.value.degrees.value).value, wheelRadius))
    ensures r.Success? && r.value.MotorRunToRel? && r.value.positionDeg.Some? ==>
              FloatOf(r.value.positionDeg.value).Some? &&
              r.value.positionMm == Some(DegToMm(FloatOf(r.value.positionDeg.value).value, wheelRadius))
    ensures r.Success? && r.value.MotorPairMoveForDegrees? && r.value.degrees.Some? ==>
              FloatOf(r.value.degrees.value).Some? &&
              r.value.mm == Some(DegToMm(FloatOf(r.value.degrees.value).value, wheelRadius))
    // the call fails exactly when its degree field is present and float() rejects it
    ensures r.Failure? <==> DegreeField(c).Some? && FloatOf(DegreeField(c).value).None?
    ensures r.Failure? ==> r.error == NotANumber(c.lineno, DegreeField(c).value)
  {
    match KindOf(c.name)
    case FollowKind =>
      var heading := KwGet(c.kw, "heading", PosAt(c.pos, 0));
      var gain := KwGet(c.kw, "gain", None);
      var speed := KwGet(c.kw, "speed", None);
      var distanceDeg := KwGet(c.kw, "distance", None);
      var condition := KwGet(c.kw, "condition", None);
      (match MmOf(distanceDeg, wheelRadius, c.lineno)
       case Failure(e) => Failure(e)
       case Success(mm) =>
         var px := if mm.Some? then Some(mm.value * pixelScale) else None;
         Success(GyroFollow(heading, gain, speed, distanceDeg, mm, px, condition)))
    case TurnKind =>
      Success(GyroTurn(KwGet(c.kw, "steering", PosAt(c.pos, 0)), KwGet(c.kw, "heading", None),
                       KwGet(c.kw, "speed", None)))
    case RunForDegreesKind =>
      var port := if |c.pos| >= 2 then c.pos[0] else None;
      var degrees := KwGet(c.kw, "degrees", if |c.pos| >= 2 then c.pos[1] else None);
      var speed := KwGet(c.kw, "speed", if |c.pos| >= 3 then c.pos[2] else None);
      (match MmOf(degrees, wheelRadius, c.lineno)
       case Failure(e) => Failure(e)
       case Success(mm) => Success(MotorRunForDegrees(port, degrees, mm, speed)))
    case RunToRelKind =>
      var port := PosAt(c.pos, 0);
      var position := KwGet(c.kw, "position", PosAt(c.pos, 1));
      (match MmOf(position, wheelRadius, c.lineno)
       case Failure(e) => Failure(e)
       case Success(mm) => Success(MotorRunToRel(port, position, mm)))
    case MoveForDegreesKind =>
      var steering := KwGet(c.kw, "steering", if |c.pos| >= 2 then c.pos[0] else None);
      var degrees := KwGet(c.kw, "degrees", if |c.pos| >= 2 then c.pos[1] else None);
      (match MmOf(degrees, wheelRadius, c.lineno)
       case Failure(e) => Failure(e)
       case Success(mm) => Success(MotorPairMoveForDegrees(steering, degrees, mm)))
    case CallKind =>
      Success(RawCall(c.pos, c.kw))
  }

  /** The suffixes are tried in a fixed order, and a name that ends with none
      of them is a raw call. */
  lemma KindPriority(name: string)
    ensures EndsWith(name, "gyro_follow") ==> KindOf(name) == FollowKind
    ensures !EndsWith(name, "gyro_follow") && EndsWith(name, "gyro_turn") ==> KindOf(name) == TurnKind
    ensures KindOf(name) == CallKind <==>
              !EndsWith(name, "gyro_follow") && !EndsWith(name, "gyro_turn") &&
              !EndsWith(name, "run_for_degrees") && !EndsWith(name, "run_to_relative_position") &&
              !EndsWith(name, "move_for_degrees")
  {
  }

  // ---------------- parse_spike_file ----------------

  /** The entries of one `*_main` function, in call order; the first call
      whose degree field float() rejects aborts the whole parse. */
  function EntriesOf(fname: string, calls: seq<Call>, wheelRadius: real, pixelScale: real): (r: Result<seq<Entry>, ParseError>)
    ensures r.Success? ==> |r.value| == |calls| && forall e :: e in r.value ==> e.sourceFunc == fname
  {
    if calls == [] then Success([])
    else
      var last := calls[|calls| - 1];
      match EntriesOf(fname, calls[..|calls| - 1], wheelRadius, pixelScale)
      case Failure(e) => Failure(e)
      case Success(es) =>
        match Classify(last, wheelRadius, pixelScale)
        case Failure(e) => Failure(e)
        case Success(ins) => Success(es + [Entry(fname, last.lineno, last.name, ins)])
  }

  predicate IsMain(s: Stmt)
  {
    s.FunctionDef? && EndsWith(s.name, "_main")
  }

  /** The instruction list of a module: the entries of its `*_main` functions
      in order; every other statement contributes nothing. */
  function ParseModule(body: seq<Stmt>, wheelRadius: real, pixelScale: real): (r: Result<seq<Entry>, ParseError>)
    ensures r.Success? ==> forall e :: e in r.value ==> EndsWith(e.sourceFunc, "_main")
  {
    if body == [] then Success([])
    else
      var last := body[|body| - 1];
      match ParseModule(body[..|body| - 1], wheelRadius, pixelScale)
      case Failure(e) => Failure(e)
      case Success(es) =>
        if IsMain(last) then
          match EntriesOf(last.name, ExtractedCalls(last.body), wheelRadius, pixelScale)
          case Failure(e) => Failure(e)
          case Success(fs) => Success(es + fs)
        else Success(es)
  }

  /** Every call yields exactly one entry carrying its function, line and
      name, and the instruction its classification gives. */
  lemma {:induction false} EntriesOfShape(fname: string, calls: seq<Call>, wheelRadius: real, pixelScale: real)
    requires EntriesOf(fname, calls, wheelRadius, pixelScale).Success?
    ensures var es := EntriesOf(fname, calls, wheelRadius, pixelScale).value;
            |es| == |calls| &&
            forall i :: 0 <= i < |es| ==>
              es[i].sourceFunc == fname && es[i].lineno == calls[i].lineno && es[i].call == calls[i].name &&
              Classify(calls[i], wheelRadius, pixelScale) == Success(es[i].instr)
  {
    if calls != [] {
      var init := calls[..|calls| - 1];
      EntriesOfShape(fname, init, wheelRadius, pixelScale);
      var es := EntriesOf(fname, calls, wheelRadius, pixelScale).value;
      forall i | 0 <= i < |init| ensures calls[i] == init[i] {
      }
    }
  }

  /** Only `*_main` functions contribute entries. */
  lemma {:induction false} ParseModuleOnlyMains(body: seq<Stmt>, wheelRadius: real, pixelScale: real)
    requires ParseModule(body, wheelRadius, pixelScale).Success?
    ensures forall e :: e in ParseModule(body, wheelRadius, pixelScale).value ==>
              EndsWith(e.sourceFunc, "_main") && exists s :: s in body && IsMain(s) && s.name == e.sourceFunc
  {
    if body != [] {
      var init := body[..|body| - 1];
      var last := body[|body| - 1];
      ParseModuleOnlyMains(init, wheelRadius, pixelScale);
      var es := ParseModule(init, wheelRadius, pixelScale).value;
      forall e | e in ParseModule(body, wheelRadius, pixelScale).value
        ensures EndsWith(e.sourceFunc, "_main") && exists s :: s in body && IsMain(s) && s.name == e.sourceFunc
      {
        if e in es {
          var s :| s in init && IsMain(s) && s.name == e.sourceFunc;
          assert s in body;
        } else {
          assert IsMain(last);
          var fs := EntriesOf(last.name, ExtractedCalls(last.body), wheelRadius, pixelScale).value;
          EntriesOfShape(last.name, ExtractedCalls(last.body), wheelRadius, pixelScale);
          assert e in fs;
          assert last in body;
        }
      }
    }
  }

  /** A function's calls parse exactly when each of them classifies, and a
      failure carries the error of the first call that does not. */
  lemma {:induction false} EntriesOfSucceeds(fname: string, calls: seq<Call>, wheelRadius: real, pixelScale: real)
    ensures EntriesOf(fname, calls, wheelRadius, pixelScale).Success? <==>
              forall i :: 0 <= i < |calls| ==> Classify(calls[i], wheelRadius, pixelScale).Success?
    ensures EntriesOf(fname, calls, wheelRadius, pixelScale).Failure? ==>
              exists k :: 0 <= k < |calls| &&
                (forall j :: 0 <= j < k ==> Classify(calls[j], wheelRadius, pixelScale).Success?) &&
                Classify(calls[k], wheelRadius, pixelScale) == Failure(EntriesOf(fname, calls, wheelRadius, pixelScale).error)
  {
    if calls != [] {
      var init := calls[..|calls| - 1];
      EntriesOfSucceeds(fname, init, wheelRadius, pixelScale);
      assert forall i :: 0 <= i < |init| ==> init[i] == calls[i];
      var r := EntriesOf(fname, init, wheelRadius, pixelScale);
      if r.Failure? {
        var k :| 0 <= k < |init| &&
                 (forall j :: 0 <= j < k ==> Classify(init[j], wheelRadius, pixelScale).Success?) &&
                 Classify(init[k], wheelRadius, pixelScale) == Failure(r.error);
        assert Classify(calls[k], wheelRadius, pixelScale) == Failure(r.error);
      } else if Classify(calls[|calls| - 1], wheelRadius, pixelScale).Failure? {
        assert Classify(calls[|init|], wheelRadius, pixelScale).Failure?;
      }
    }
  }

  /** Two parse results in sequence: the first failure wins, otherwise the
      entries of both, in order. */
  function AndThen(a: Result<seq<Entry>, ParseError>, b: Result<seq<Entry>, ParseError>): Result<seq<Entry>, ParseError>
  {
    match a
    case Failure(e) => Failure(e)
    case Success(xs) =>
      match b
      case Failure(e) => Failure(e)
      case Success(ys) => Success(xs + ys)
  }

  /** A module of one statement: the entries of that function when it is a
      `*_main` function, nothing otherwise. */
  lemma ParseModuleSingle(st: Stmt, wheelRadius: real, pixelScale: real)
    ensures ParseModule([st], wheelRadius, pixelScale) ==
              if IsMain(st) then EntriesOf(st.name, ExtractedCalls(st.body), wheelRadius, pixelScale) else Success([])
  {
    assert [st][..0] == [];
    if IsMain(st) {
      var r := EntriesOf(st.name, ExtractedCalls(st.body), wheelRadius, pixelScale);
      if r.Success? {
        assert [] + r.value == r.value;
      }
    }
  }

  /** Parsing a concatenation of statements is parsing both parts in order,
      the first failure winning. */
  lemma {:induction false} ParseModuleAppend(a: seq<Stmt>, b: seq<Stmt>, wheelRadius: real, pixelScale: real)
    ensures ParseModule(a + b, wheelRadius, pixelScale) ==
              AndThen(ParseModule(a, wheelRadius, pixelScale), ParseModule(b, wheelRadius, pixelScale))
  {
    if b == [] {
      assert a + b == a;
      var r := ParseModule(a, wheelRadius, pixelScale);
      if r.Success? {
        assert r.value + [] == r.value;
      }
    } else {
      var init := b[..|b| - 1];
      var last := b[|b| - 1];
      assert (a + b)[..|a + b| - 1] == a + init;
      assert (a + b)[|a + b| - 1] == last;
      ParseModuleAppend(a, init, wheelRadius, pixelScale);
      var ra := ParseModule(a, wheelRadius, pixelScale);
      var ri := ParseModule(init, wheelRadius, pixelScale);
      if ra.Success? && ri.Success? && IsMain(last) {
        var rl := EntriesOf(last.name, ExtractedCalls(last.body), wheelRadius, pixelScale);
        if rl.Success? {
          assert ra.value + ri.value + rl.value == ra.value + (ri.value + rl.value);
        }
      }
    }
  }

  /** A module parses exactly when the calls of each of its `*_main`
      functions do. */
  lemma {:induction false} ParseModuleSucceeds(body: seq<Stmt>, wheelRadius: real, pixelScale: real)
    ensures ParseModule(body, wheelRadius, pixelScale).Success? <==>
              forall i :: 0 <= i < |body| && IsMain(body[i]) ==>
                EntriesOf(body[i].name, ExtractedCalls(body[i].body), wheelRadius, pixelScale).Success?
  {
    if body != [] {
      var init := body[..|body| - 1];
      ParseModuleSucceeds(init, wheelRadius, pixelScale);
      assert forall i :: 0 <= i < |init| ==> init[i] == body[i];
    }
  }

  /** Every `*_main` function's entries appear in a successful parse, in
      place: after those of the statements before it and before those of the
      statements after it. */
  lemma ParseModuleSplit(body: seq<Stmt>, i: nat, wheelRadius: real, pixelScale: real)
    requires i < |body| && IsMain(body[i])
    requires ParseModule(body, wheelRadius, pixelScale).Success?
    ensures var before := ParseModule(body[..i], wheelRadius, pixelScale);
            var mine := EntriesOf(body[i].name, ExtractedCalls(body[i].body), wheelRadius, pixelScale);
            var after := ParseModule(body[i + 1..], wheelRadius, pixelScale);
            before.Success? && mine.Success? && after.Success? &&
            ParseModule(body, wheelRadius, pixelScale).value == before.value + mine.value + after.value
  {
    assert body == body[..i] + [body[i]] + body[i + 1..];
    ParseModuleAppend(body[..i] + [body[i]], body[i + 1..], wheelRadius, pixelScale);
    ParseModuleAppend(body[..i], [body[i]], wheelRadius, pixelScale);
    ParseModuleSingle(body[i], wheelRadius, pixelScale);
  }

  /** `parse_spike_file`: for every top-level `*_main` function, extract its
      calls and append one entry per call; an exception from a degree
      conversion aborts the whole parse. */
  method ParseSpikeFile(body: seq<Stmt>, wheelRadius: real, pixelScale: real)
    returns (r: Result<seq<Entry>, ParseError>)
    ensures r == ParseModule(body, wheelRadius, pixelScale)
  {
    var instructions: seq<Entry> := [];
    var n := 0;
    while n < |body|
      invariant 0 <= n <= |body|
      invariant ParseModule(body[..n], wheelRadius, pixelScale) == Success(instructions)
    {
      assert body[..n + 1][..n] == body[..n];
      var node := body[n];
      if node.FunctionDef? && EndsWith(node.name, "_main") {
        var calls := ExtractCalls(node.body);
        var fromThis := ClassifyCalls(node.name, calls, wheelRadius, pixelScale);
        if fromThis.Failure? {
          ParsePrefixFailurePersists(body, n + 1, wheelRadius, pixelScale);
          assert body[..|body|] == body;
          return Failure(fromThis.error);
        }
        instructions := instructions + fromThis.value;
      }
      n := n + 1;
    }
    assert body[..n] == body;
    return Success(instructions);
  }

  /** The inner loop of `parse_spike_file` over the extracted calls of one
      `*_main` function: each call is classified into an entry, in order, and
      the first `float()` failure ends the parse. */
  method ClassifyCalls(fname: string, calls: seq<Call>, wheelRadius: real, pixelScale: real)
    returns (r: Result<seq<Entry>, ParseError>)
    ensures r == EntriesOf(fname, calls, wheelRadius, pixelScale)
  {
    var fromThis: seq<Entry> := [];
    var i := 0;
    while i < |calls|
      invariant 0 <= i <= |calls|
      invariant EntriesOf(fname, calls[..i], wheelRadius, pixelScale) == Success(fromThis)
    {
      assert calls[..i + 1][..i] == calls[..i];
      var c := calls[i];
      var ins := Classify(c, wheelRadius, pixelScale);
      if ins.Failure? {
        PrefixFailurePersists(fname, calls, i + 1, wheelRadius, pixelScale);
        assert calls[..|calls|] == calls;
        return Failure(ins.error);
      }
      fromThis := fromThis + [Entry(fname, c.lineno, c.name, ins.value)];
      i := i + 1;
    }
    assert calls[..i] == calls;
    return Success(fromThis);
  }

  /** Once a prefix of the calls fails, every longer prefix fails the same way. */
  lemma {:induction false} PrefixFailurePersists(fname: string, calls: seq<Call>, k: nat, wheelRadius: real, pixelScale: real)
    requires k <= |calls|
    requires EntriesOf(fname, calls[..k], wheelRadius, pixelScale).Failure?
    ensures EntriesOf(fname, calls, wheelRadius, pixelScale) == EntriesOf(fname, calls[..k], wheelRadius, pixelScale)
    decreases |calls| - k
  {
    if k < |calls| {
      assert calls[..k + 1][..k] == calls[..k];
      PrefixFailurePersists(fname, calls, k + 1, wheelRadius, pixelScale);
    } else {
      assert calls[..k] == calls;
    }
  }

  lemma {:induction false} ParsePrefixFailurePersists(body: seq<Stmt>, k: nat, wheelRadius: real, pixelScale: real)
    requires k <= |body|
    requires ParseModule(body[..k], wheelRadius, pixelScale).Failure?
    ensures ParseModule(body, wheelRadius, pixelScale) == ParseModule(body[..k], wheelRadius, pixelScale)
    decreases |body| - k
  {
    if k < |body| {
      assert body[..k + 1][..k] == body[..k];
      ParsePrefixFailurePersists(body, k + 1, wheelRadius, pixelScale);
    } else {
      assert body[..k] == body;
    }
  }

  // ---------------- grouping ----------------

  /** The entries of one source function, in their original order. */
  function EntriesFrom(es: seq<Entry>, fname: string): seq<Entry>
  {
    if es == [] then []
    else EntriesFrom(es[..|es| - 1], fname) + (if es[|es| - 1].sourceFunc == fname then [es[|es| - 1]] else [])
  }

  /** Selecting one group distributes over concatenation, so entries keep
      their relative order inside each group. */
  lemma {:induction false} EntriesFromAppend(a: seq<Entry>, b: seq<Entry>, fname: string)
    ensures EntriesFrom(a + b, fname) == EntriesFrom(a, fname) + EntriesFrom(b, fname)
    decreases |b|
  {
    if b == [] {
      assert a + b == a;
    } else {
      var bi := b[..|b| - 1];
      assert (a + b)[..|a + b| - 1] == a + bi;
      EntriesFromAppend(a, bi, fname);
    }
  }

  /** A group holds exactly the entries with that source function. */
  lemma {:induction false} EntriesFromMembers(es: seq<Entry>, fname: string)
    ensures forall e :: e in EntriesFrom(es, fname) <==> e in es && e.sourceFunc == fname
  {
    if es != [] {
      EntriesFromMembers(es[..|es| - 1], fname);
      assert es == es[..|es| - 1] + [es[|es| - 1]];
    }
  }

  /** The source functions that have entries. */
  function Sources(es: seq<Entry>): set<string>
  {
    if es == [] then {} else Sources(es[..|es| - 1]) + {es[|es| - 1].sourceFunc}
  }

  /** A name is a source exactly when some entry comes from it. */
  lemma {:induction false} SourcesMembers(es: seq<Entry>, f: string)
    ensures f in Sources(es) <==> exists e :: e in es && e.sourceFunc == f
  {
    if es != [] {
      var init := es[..|es| - 1];
      SourcesMembers(init, f);
      assert es == init + [es[|es| - 1]];
      if f in Sources(init) {
        var e :| e in init && e.sourceFunc == f;
        assert e in es;
      }
    }
  }

  /** A name with no entries has an empty group. */
  lemma {:induction false} EntriesFromEmpty(es: seq<Entry>, fname: string)
    requires fname !in Sources(es)
    ensures EntriesFrom(es, fname) == []
  {
    if es != [] {
      EntriesFromEmpty(es[..|es| - 1], fname);
    }
  }

  /** `mains.setdefault(e["source_func"], []).append(e)` over the entries. */
  method GroupBySource(es: seq<Entry>) returns (mains: map<string, seq<Entry>>)
    ensures forall f :: f in mains <==> exists e :: e in es && e.sourceFunc == f
    ensures forall f :: f in mains ==> mains[f] == EntriesFrom(es, f)
  {
    mains := map[];
    var i := 0;
    while i < |es|
      invariant 0 <= i <= |es|
      invariant mains.Keys == Sources(es[..i])
      invariant forall f :: f in mains ==> mains[f] == EntriesFrom(es[..i], f)
    {
      var e := es[i];
      assert es[..i + 1][..i] == es[..i];
      var group := if e.sourceFunc in mains then mains[e.sourceFunc] else [];
      if e.sourceFunc !in mains {
        EntriesFromEmpty(es[..i], e.sourceFunc);
      }
      mains := mains[e.sourceFunc := group + [e]];
      i := i + 1;
    }
    assert es[..i] == es;
    forall f ensures f in mains <==> exists e :: e in es && e.sourceFunc == f {
      SourcesMembers(es, f);
    }
  }
}
