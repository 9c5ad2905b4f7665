/** The JSON form of action and event configurations (pkg/app/api/models/modules.go): the known
    fields and the free options of an item share one JSON object. */
module ConfigJson {
  import opened Basics
  import opened FloatNumbers
  import opened KeyOrder

  const TWO_TO_THE_64 := 0x1_0000_0000_0000_0000

  type Uint64 = n: nat | n < 0x1_0000_0000_0000_0000

  datatype Json = Null | Num(n: nat) | Str(s: string) | Other | List(items: seq<Json>) | Obj(fields: map<string, Json>)

  /** The number looks the same after a pass through untyped JSON. */
  predicate KeepsItsDigits(n: nat) {
    Reprint(n) == n
  }

  /** A value that is decoded without a type and encoded again. A value inside a configuration is
      known here by the JSON it is written as. */
  function Through(v: Json): Json {
    match v
    case Num(n) => Num(Reprint(n))
    case List(items) => List(seq(|items|, i requires 0 <= i < |items| => Through(items[i])))
    case Obj(fields) => Obj(map k | k in fields :: Through(fields[k]))
    case _ => v
  }

  // ---- Go structs from JSON objects: keys match a field's name in any case ----

  /** The value a struct field ends with: that of the last of its variants, in the order in which
      Go writes the keys of an object. A null leaves a field alone that is no slice. */
  ghost function FieldOf(obj: map<string, Json>, name: string, skipNull: bool): Json {
    var ks := set k | k in obj && Fold(k) == name && !(skipNull && obj[k].Null?);
    if ks == {} then Null else obj[LastKey(ks)]
  }

  ghost function Scalar(obj: map<string, Json>, name: string): Json {
    FieldOf(obj, name, true)
  }

  ghost function Listed(obj: map<string, Json>, name: string): Json {
    FieldOf(obj, name, false)
  }

  /** The exact name of a field, in lower case, comes last and wins. */
  lemma ExactWins(obj: map<string, Json>, name: string, skipNull: bool)
    requires name in obj && Fold(name) == name && !(skipNull && obj[name].Null?)
    ensures FieldOf(obj, name, skipNull) == obj[name]
  {
    var ks := set k | k in obj && Fold(k) == name && !(skipNull && obj[k].Null?);
    forall k | k in ks ensures k == name || Less(k, name) {
      VariantsFirst(k, name);
    }
    LastKeyIs(ks, name);
  }

  /** Only the variants of its name matter to a field. */
  lemma SameVariants(obj: map<string, Json>, other: map<string, Json>, name: string, skipNull: bool)
    requires forall k :: Fold(k) == name ==> (k in obj <==> k in other) && (k in obj ==> obj[k] == other[k])
    ensures FieldOf(obj, name, skipNull) == FieldOf(other, name, skipNull)
  {
    assert (set k | k in obj && Fold(k) == name && !(skipNull && obj[k].Null?))
        == (set k | k in other && Fold(k) == name && !(skipNull && other[k].Null?));
  }

  /** Every value whose key matches the field must have the field's type. */
  predicate WellTyped<T>(obj: map<string, Json>, name: string, dec: Json -> Option<T>) {
    forall k <- obj :: Fold(k) == name ==> dec(obj[k]).Some?
  }

  function DecNat(v: Json): Option<Uint64> {
    match v
    case Null => Some(0)
    case Num(n) => if n < TWO_TO_THE_64 then Some(n) else None
    case _ => None
  }

  function DecString(v: Json): Option<string> {
    match v
    case Null => Some("")
    case Str(s) => Some(s)
    case _ => None
  }

  function DecEach<T>(items: seq<Json>, dec: Json -> Option<T>): Option<seq<T>> {
    if items == [] then Some([])
    else
      match (dec(items[0]), DecEach(items[1..], dec))
      case (Some(x), Some(rest)) => Some([x] + rest)
      case _ => None
  }

  /** A slice: null is the nil slice. */
  function DecList<T>(v: Json, dec: Json -> Option<T>): Option<Option<seq<T>>> {
    match v
    case Null => Some(None)
    case List(items) =>
      (match DecEach(items, dec)
       case Some(xs) => Some(Some(xs))
       case None => None)
    case _ => None
  }

  function EncList<T>(xs: Option<seq<T>>, enc: T -> Json): Json {
    match xs
    case None => Null
    case Some(list) => List(seq(|list|, i requires 0 <= i < |list| => enc(list[i])))
  }

  function EncString(s: string): Json {
    Str(s)
  }

  type Strings = Option<seq<string>>

  function EncStrings(xs: Strings): Json {
    EncList(xs, EncString)
  }

  function DecStrings(v: Json): Option<Strings> {
    DecList(v, DecString)
  }

  /** Element by element, an encoded list is read back as its image. */
  lemma {:induction false} DecEachIs<T>(items: seq<Json>, dec: Json -> Option<T>, xs: seq<T>)
    requires |items| == |xs| && forall i :: 0 <= i < |xs| ==> dec(items[i]) == Some(xs[i])
    ensures DecEach(items, dec) == Some(xs)
  {
    if items != [] {
      DecEachIs(items[1..], dec, xs[1..]);
      assert xs == [xs[0]] + xs[1..];
    }
  }

  lemma StringsRoundTrip(xs: Strings)
    ensures DecStrings(EncStrings(xs)) == Some(xs) && Through(EncStrings(xs)) == EncStrings(xs)
  {
    if xs.Some? {
      assert forall i :: 0 <= i < |xs.value| ==> EncStrings(xs).items[i] == EncString(xs.value[i]);
      DecEachIs(EncStrings(xs).items, DecString, xs.value);
      assert Through(EncStrings(xs)).items == EncStrings(xs).items;
    }
  }

  // ---- Actions ----

  type Options = map<string, Json>

  datatype ActionItem = ActionItem(priority: Uint64, fields: Strings, config: Options)

  const ACTION_TAGS := {"priority", "fields"}

  function ThroughAll(m: map<string, Json>): map<string, Json> {
    map k | k in m :: Through(m[k])
  }

  /** The known fields pass through untyped JSON once, then the options join them. */
  function MarshalAction(a: ActionItem): map<string, Json> {
    ThroughAll(map["priority" := Num(a.priority), "fields" := EncStrings(a.fields)]) + a.config
  }

  function FreeOptions(obj: map<string, Json>, tags: set<string>): Options {
    map k | k in obj && k !in tags && k != "-" :: Through(obj[k])
  }

  ghost function UnmarshalAction(obj: map<string, Json>): Option<ActionItem> {
    if !WellTyped(obj, "priority", DecNat) || !WellTyped(obj, "fields", DecStrings) then None
    else
      match (DecNat(Scalar(obj, "priority")), DecStrings(Listed(obj, "fields")))
      case (Some(priority), Some(fields)) => Some(ActionItem(priority, fields, FreeOptions(obj, ACTION_TAGS)))
      case _ => None
  }

  /** No option's name reads as a known field, in any case, or is "-". */
  ghost predicate KeysApart(config: Options, tags: set<string>) {
    forall k :: k in config ==> k != "-" && Fold(k) !in tags
  }

  ghost predicate OptionsExact(config: Options) {
    forall k :: k in config ==> Through(config[k]) == config[k]
  }

  lemma FoldOfLower(k: string)
    requires forall i :: 0 <= i < |k| ==> LowerChar(k[i]) == k[i]
    ensures Fold(k) == k
  {
  }

  lemma TagsFold()
    ensures Fold("priority") == "priority" && Fold("fields") == "fields"
    ensures Fold("type") == "type" && Fold("actions") == "actions" && Fold("seq") == "seq"
    ensures Fold("group_by") == "group_by" && Fold("max_count") == "max_count" && Fold("max_time") == "max_time"
    ensures Fold("name") == "name" && Fold("module_name") == "module_name" && Fold("min_count") == "min_count"
  {
    FoldOfLower("priority");
    FoldOfLower("fields");
    FoldOfLower("type");
    FoldOfLower("actions");
    FoldOfLower("seq");
    FoldOfLower("group_by");
    FoldOfLower("max_count");
    FoldOfLower("max_time");
    FoldOfLower("name");
    FoldOfLower("module_name");
    FoldOfLower("min_count");
  }

  /** No option has the exact name of a known field, or "-". */
  ghost predicate KeysFree(config: Options, tags: set<string>) {
    forall k :: k in config ==> k != "-" && k !in tags
  }

  /** An option whose name differs from a known field's only in case is decoded as that field too:
      its value must have the field's type. */
  ghost predicate VariantsTyped(config: Options) {
    WellTyped(config, "priority", DecNat) && WellTyped(config, "fields", DecStrings)
  }

  lemma ActionObject(a: ActionItem)
    requires KeysFree(a.config, ACTION_TAGS)
    ensures var obj := MarshalAction(a);
            && "priority" in obj && obj["priority"] == Num(Reprint(a.priority))
            && "fields" in obj && obj["fields"] == EncStrings(a.fields)
            && (forall k :: k in obj && k !in ACTION_TAGS ==> k in a.config && obj[k] == a.config[k])
            && (forall k :: k in a.config ==> k in obj && k !in ACTION_TAGS && obj[k] == a.config[k])
  {
    StringsRoundTrip(a.fields);
    assert "priority" !in a.config && "fields" !in a.config;
  }

  lemma ActionTypes(a: ActionItem)
    requires KeysFree(a.config, ACTION_TAGS)
    ensures var obj := MarshalAction(a);
            WellTyped(obj, "priority", DecNat) && WellTyped(obj, "fields", DecStrings)
            <==> Reprint(a.priority) < TWO_TO_THE_64 && VariantsTyped(a.config)
  {
    var obj := MarshalAction(a);
    ActionObject(a);
    TagsFold();
    StringsRoundTrip(a.fields);
    JoinedTypes(a.config, obj, "priority", DecNat);
    JoinedTypes(a.config, obj, "fields", DecStrings);
  }

  /** A known field joined to the options: its own value and all variants must be well typed. */
  lemma JoinedTypes<T>(config: Options, obj: map<string, Json>, name: string, dec: Json -> Option<T>)
    requires name in obj && Fold(name) == name && name !in config
    requires forall k :: k in obj && Fold(k) == name && k != name ==> k in config && obj[k] == config[k]
    requires forall k :: k in config ==> k in obj && obj[k] == config[k]
    ensures WellTyped(obj, name, dec) <==> dec(obj[name]).Some? && WellTyped(config, name, dec)
  {
    if dec(obj[name]).Some? && WellTyped(config, name, dec) {
      forall k | k in obj && Fold(k) == name ensures dec(obj[k]).Some? {
        if k != name {
          assert k in config;
        }
      }
    }
  }

  /** What comes back for an item whose options keep off the exact names. */
  lemma ActionComesBack(a: ActionItem)
    requires KeysFree(a.config, ACTION_TAGS)
    ensures UnmarshalAction(MarshalAction(a)) ==
            if Reprint(a.priority) < TWO_TO_THE_64 && VariantsTyped(a.config)
            then Some(ActionItem(Reprint(a.priority), a.fields, ThroughAll(a.config))) else None
  {
    var obj := MarshalAction(a);
    ActionTypes(a);
    ActionObject(a);
    StringsRoundTrip(a.fields);
    TagsFold();
    ExactWins(obj, "priority", true);
    ExactWins(obj, "fields", false);
    assert FreeOptions(obj, ACTION_TAGS) == ThroughAll(a.config);
  }

  /** Reading undoes writing if and only if the options keep off "-" and the exact names of the
      known fields, those that are variants of such a name have its type, and the priority and
      the options keep their digits. */
  lemma ActionRoundTripIff(a: ActionItem)
    ensures UnmarshalAction(MarshalAction(a)) == Some(a) <==>
              KeysFree(a.config, ACTION_TAGS) && VariantsTyped(a.config)
              && KeepsItsDigits(a.priority) && OptionsExact(a.config)
  {
    if KeysFree(a.config, ACTION_TAGS) {
      ActionComesBack(a);
      OptionsBackIff(a.config);
    } else {
      var back := UnmarshalAction(MarshalAction(a));
      assert back.Some? ==> KeysFree(back.value.config, ACTION_TAGS);
    }
  }

  /** With no variants around, only the field's own name matters. */
  lemma OwnName<T>(obj: map<string, Json>, name: string, dec: Json -> Option<T>)
    requires name in obj && Fold(name) == name
    requires forall k :: k in obj && Fold(k) == name ==> k == name
    ensures WellTyped(obj, name, dec) <==> dec(obj[name]).Some?
    ensures Listed(obj, name) == obj[name]
    ensures !obj[name].Null? ==> Scalar(obj, name) == obj[name]
  {
    ExactWins(obj, name, false);
    if !obj[name].Null? {
      ExactWins(obj, name, true);
    }
  }

  /** For options in lower case, as the validation of items demands: reading undoes writing if and
      only if they keep off "-" and the known names, and the numbers keep their digits. */
  lemma LowerCaseActionIff(a: ActionItem)
    requires forall k :: k in a.config ==> Fold(k) == k
    ensures UnmarshalAction(MarshalAction(a)) == Some(a) <==>
              KeysFree(a.config, ACTION_TAGS) && KeepsItsDigits(a.priority) && OptionsExact(a.config)
  {
    ActionRoundTripIff(a);
    if KeysFree(a.config, ACTION_TAGS) {
      assert VariantsTyped(a.config);
    }
  }

  lemma PriorityReplaced(n: Uint64, p: nat)
    ensures MarshalAction(ActionItem(n, None, map["priority" := Num(p)])) == map["priority" := Num(p), "fields" := Null]
  {
  }

  /** An option called like a known field would take its place: the priority would be another one.
      Reading never makes such an option (see ReadOptionsFree). */
  lemma KnownNameIsLost(n: Uint64, p: Uint64)
    ensures UnmarshalAction(MarshalAction(ActionItem(n, None, map["priority" := Num(p)])))
            == Some(ActionItem(p, None, map[]))
  {
    var obj := map["priority" := Num(p), "fields" := Null];
    PriorityReplaced(n, p);
    PlainKeys();
    NoVariantsOf(obj, "priority", DecNat);
    NoVariantsOf(obj, "fields", DecStrings);
    assert FreeOptions(obj, ACTION_TAGS) == map[];
  }

  /** Avoiding the exact names is not enough: an option called "Priority" that is no number cannot
      be read back at all. */
  lemma CaseVariantBreaks(a: ActionItem)
    requires "Priority" in a.config && a.config["Priority"].Str?
    ensures UnmarshalAction(MarshalAction(a)) == None
  {
    assert Fold("Priority") == "priority";
    assert MarshalAction(a)["Priority"] == a.config["Priority"];
  }

  // ---- Events ----

  datatype EventAction = EventAction(name: string, moduleName: string, priority: Uint64, fields: Strings)

  datatype EventSeq = EventSeq(name: string, minCount: Uint64)

  datatype EventItem = EventItem(kind: string, fields: Strings, actions: Option<seq<EventAction>>,
                                 seqs: Option<seq<EventSeq>>, groupBy: Strings,
                                 maxCount: Uint64, maxTime: Uint64, config: Options)

  const EVENT_TAGS := {"type", "fields", "actions", "seq", "group_by", "max_count", "max_time"}

  function EncAction(a: EventAction): Json {
    Obj(map["name" := Str(a.name), "module_name" := Str(a.moduleName),
            "priority" := Num(a.priority), "fields" := EncStrings(a.fields)])
  }

  function EncSeq(s: EventSeq): Json {
    Obj(map["name" := Str(s.name), "min_count" := Num(s.minCount)])
  }

  ghost function DecAction(v: Json): Option<EventAction> {
    match v
    case Null => Some(EventAction("", "", 0, None))
    case Obj(obj) =>
      if !WellTyped(obj, "name", DecString) || !WellTyped(obj, "module_name", DecString)
         || !WellTyped(obj, "priority", DecNat) || !WellTyped(obj, "fields", DecStrings) then None
      else
        (match (DecString(Scalar(obj, "name")), DecString(Scalar(obj, "module_name")),
                DecNat(Scalar(obj, "priority")), DecStrings(Listed(obj, "fields")))
         case (Some(name), Some(moduleName), Some(priority), Some(fields)) =>
           Some(EventAction(name, moduleName, priority, fields))
         case _ => None)
    case _ => None
  }

  ghost function DecSeq(v: Json): Option<EventSeq> {
    match v
    case Null => Some(EventSeq("", 0))
    case Obj(obj) =>
      if !WellTyped(obj, "name", DecString) || !WellTyped(obj, "min_count", DecNat) then None
      else
        (match (DecString(Scalar(obj, "name")), DecNat(Scalar(obj, "min_count")))
         case (Some(name), Some(minCount)) => Some(EventSeq(name, minCount))
         case _ => None)
    case _ => None
  }

  ghost function DecActions(v: Json): Option<Option<seq<EventAction>>> {
    DecList(v, x => DecAction(x))
  }

  ghost function DecSeqs(v: Json): Option<Option<seq<EventSeq>>> {
    DecList(v, x => DecSeq(x))
  }

  /** Correlation limits are written for events that are not atomic, straight from the struct. */
  function MarshalEvent(e: EventItem): map<string, Json> {
    var raw := ThroughAll(map["type" := Str(e.kind), "fields" := EncStrings(e.fields),
                              "actions" := EncList(e.actions, EncAction)]) + e.config;
    if e.kind != "atomic" then
      raw["max_count" := Num(e.maxCount)]["max_time" := Num(e.maxTime)]
         ["group_by" := EncStrings(e.groupBy)]["seq" := EncList(e.seqs, EncSeq)]
    else raw - {"max_count", "max_time", "group_by", "seq"}
  }

  ghost predicate EventWellTyped(obj: map<string, Json>) {
    && WellTyped(obj, "type", DecString) && WellTyped(obj, "fields", DecStrings)
    && (forall k :: k in obj && Fold(k) == "actions" ==> DecActions(obj[k]).Some?)
    && CorrelationWellTyped(obj)
  }

  ghost function UnmarshalEvent(obj: map<string, Json>): Option<EventItem> {
    if !EventWellTyped(obj) then None
    else
      match (DecString(Scalar(obj, "type")), DecStrings(Listed(obj, "fields")), DecActions(Listed(obj, "actions")),
             DecSeqs(Listed(obj, "seq")), DecStrings(Listed(obj, "group_by")),
             DecNat(Scalar(obj, "max_count")), DecNat(Scalar(obj, "max_time")))
      case (Some(kind), Some(fields), Some(actions), Some(seqs), Some(groupBy), Some(maxCount), Some(maxTime)) =>
        Some(EventItem(kind, fields, actions, seqs, groupBy, maxCount, maxTime, FreeOptions(obj, EVENT_TAGS)))
      case _ => None
  }

  /** An atomic event has no correlation part. */
  function Normal(e: EventItem): EventItem {
    if e.kind == "atomic" then e.(seqs := None, groupBy := None, maxCount := 0, maxTime := 0) else e
  }

  predicate ActionsKeepDigits(e: EventItem) {
    e.actions.Some? ==> forall a <- e.actions.value :: KeepsItsDigits(a.priority)
  }

  lemma SeqRoundTrip(s: EventSeq)
    ensures DecSeq(EncSeq(s)) == Some(s)
  {
    TagsFold();
    var obj := EncSeq(s).fields;
    OwnName(obj, "name", DecString);
    OwnName(obj, "min_count", DecNat);
  }

  lemma ActionThrough(a: EventAction)
    ensures Through(EncAction(a)).Obj?
    ensures var obj := Through(EncAction(a)).fields;
            obj == map["name" := Str(a.name), "module_name" := Str(a.moduleName),
                       "priority" := Num(Reprint(a.priority)), "fields" := EncStrings(a.fields)]
  {
    StringsRoundTrip(a.fields);
    NumThrough(a.priority);
    var m := map["name" := Str(a.name), "module_name" := Str(a.moduleName),
                 "priority" := Num(a.priority), "fields" := EncStrings(a.fields)];
    var through := map["name" := Str(a.name), "module_name" := Str(a.moduleName),
                       "priority" := Num(Reprint(a.priority)), "fields" := EncStrings(a.fields)];
    ObjThrough(m, through);
  }

  lemma NumThrough(n: nat)
    ensures Through(Num(n)) == Num(Reprint(n))
  {
  }

  lemma ObjThrough(obj: map<string, Json>, through: map<string, Json>)
    requires obj.Keys == through.Keys && forall k :: k in obj ==> Through(obj[k]) == through[k]
    ensures Through(Obj(obj)) == Obj(through)
  {
    var all := map k | k in obj :: Through(obj[k]);
    assert all == through;
  }

  /** An action inside an event comes back with its priority as a float64. */
  lemma EventActionComesBack(a: EventAction)
    ensures DecAction(Through(EncAction(a))) ==
            if Reprint(a.priority) < TWO_TO_THE_64 then Some(a.(priority := Reprint(a.priority))) else None
  {
    ActionThrough(a);
    ActionReads(a, Reprint(a.priority));
  }

  lemma ActionReads(a: EventAction, priority: nat)
    ensures DecAction(Obj(map["name" := Str(a.name), "module_name" := Str(a.moduleName),
                              "priority" := Num(priority), "fields" := EncStrings(a.fields)])) ==
            if priority < TWO_TO_THE_64 then Some(a.(priority := priority)) else None
  {
    var obj := map["name" := Str(a.name), "module_name" := Str(a.moduleName),
                   "priority" := Num(priority), "fields" := EncStrings(a.fields)];
    StringsRoundTrip(a.fields);
    PlainKeys();
    NoVariantsOf(obj, "name", DecString);
    NoVariantsOf(obj, "module_name", DecString);
    NoVariantsOf(obj, "priority", DecNat);
    NoVariantsOf(obj, "fields", DecStrings);
  }

  /** In an object whose keys are all in lower case only a field's own name matters. */
  lemma NoVariantsOf<T>(obj: map<string, Json>, name: string, dec: Json -> Option<T>)
    requires name in obj && forall k :: k in obj ==> Fold(k) == k
    ensures WellTyped(obj, name, dec) <==> dec(obj[name]).Some?
    ensures Listed(obj, name) == obj[name]
    ensures !obj[name].Null? ==> Scalar(obj, name) == obj[name]
  {
    OwnName(obj, name, dec);
  }

  lemma PlainKeys()
    ensures forall k :: k in ["name", "module_name", "priority", "fields"] ==> Fold(k) == k
  {
    TagsFold();
  }

  lemma {:induction false} DecEachIff<T>(items: seq<Json>, dec: Json -> Option<T>, xs: seq<T>)
    requires |items| == |xs|
    ensures DecEach(items, dec) == Some(xs) <==> forall i :: 0 <= i < |xs| ==> dec(items[i]) == Some(xs[i])
  {
    if items != [] {
      DecEachIff(items[1..], dec, xs[1..]);
      assert xs == [xs[0]] + xs[1..];
      assert (forall i :: 0 <= i < |xs| ==> dec(items[i]) == Some(xs[i])) <==>
             dec(items[0]) == Some(xs[0]) && forall i :: 0 <= i < |xs[1..]| ==> dec(items[1..][i]) == Some(xs[1..][i]);
    }
  }

  lemma ActionsRoundTripIff(actions: Option<seq<EventAction>>)
    ensures DecActions(Through(EncList(actions, EncAction))) == Some(actions)
            <==> (actions.Some? ==> forall a <- actions.value :: KeepsItsDigits(a.priority))
  {
    if actions.Some? {
      var xs := actions.value;
      var items := Through(EncList(actions, EncAction)).items;
      var dec: Json -> Option<EventAction> := x => DecAction(x);
      forall i | 0 <= i < |xs| ensures dec(items[i]) == Some(xs[i]) <==> KeepsItsDigits(xs[i].priority) {
        assert items[i] == Through(EncAction(xs[i]));
        EventActionComesBack(xs[i]);
      }
      DecEachIff(items, dec, xs);
    }
  }

  lemma SeqsRoundTrip(seqs: Option<seq<EventSeq>>)
    ensures DecSeqs(EncList(seqs, EncSeq)) == Some(seqs)
  {
    if seqs.Some? {
      var xs, items := seqs.value, EncList(seqs, EncSeq).items;
      forall i | 0 <= i < |xs| ensures DecSeq(items[i]) == Some(xs[i]) {
        assert items[i] == EncSeq(xs[i]);
        SeqRoundTrip(xs[i]);
      }
      DecEachIff(items, x => DecSeq(x), xs);
    }
  }

  const CORRELATION_TAGS := {"seq", "group_by", "max_count", "max_time"}

  /** The object an event is written as, key by key. */
  lemma EventObject(e: EventItem)
    requires KeysFree(e.config, EVENT_TAGS)
    ensures var obj := MarshalEvent(e);
            && "type" in obj && obj["type"] == Str(e.kind)
            && "fields" in obj && obj["fields"] == EncStrings(e.fields)
            && "actions" in obj && obj["actions"] == Through(EncList(e.actions, EncAction))
            && (e.kind != "atomic" ==>
                  && "seq" in obj && obj["seq"] == EncList(e.seqs, EncSeq)
                  && "group_by" in obj && obj["group_by"] == EncStrings(e.groupBy)
                  && "max_count" in obj && obj["max_count"] == Num(e.maxCount)
                  && "max_time" in obj && obj["max_time"] == Num(e.maxTime))
            && (e.kind == "atomic" ==> forall k :: k in CORRELATION_TAGS ==> k !in obj)
            && EventVariants(e)
  {
    StringsRoundTrip(e.fields);
  }

  /** Beside the known names the object holds exactly the options. */
  ghost predicate EventVariants(e: EventItem) {
    var obj := MarshalEvent(e);
    && (forall k :: k in obj && k !in EVENT_TAGS ==> k in e.config && obj[k] == e.config[k])
    && (forall k :: k in e.config ==> k in obj && k !in EVENT_TAGS && obj[k] == e.config[k])
  }

  lemma EventFree(e: EventItem)
    requires EventVariants(e) && KeysFree(e.config, EVENT_TAGS)
    ensures FreeOptions(MarshalEvent(e), EVENT_TAGS) == ThroughAll(e.config)
  {
  }

  /** Options that are variants of a known name are decoded as that field too. */
  ghost predicate EventVariantsTyped(config: Options) {
    EventWellTyped(config)
  }

  /** A known field beside the options: its own value and all variants must be well typed. */
  lemma KnownTypes<T>(e: EventItem, name: string, dec: Json -> Option<T>)
    requires KeysFree(e.config, EVENT_TAGS) && EventVariants(e)
    requires name in EVENT_TAGS && Fold(name) == name
    ensures WellTyped(MarshalEvent(e), name, dec) <==>
              (name in MarshalEvent(e) ==> dec(MarshalEvent(e)[name]).Some?) && WellTyped(e.config, name, dec)
  {
    var obj := MarshalEvent(e);
    if (name in obj ==> dec(obj[name]).Some?) && WellTyped(e.config, name, dec) {
      forall k | k in obj && Fold(k) == name ensures dec(obj[k]).Some? {
        if k != name {
          EventTagOfVariant(k, name);
          assert k in e.config;
        }
      }
    }
    if WellTyped(obj, name, dec) {
      forall k | k in e.config && Fold(k) == name ensures dec(e.config[k]).Some? {
        assert k in obj;
      }
    }
  }

  /** A proper variant of a known name is no known name itself. */
  lemma EventTagOfVariant(k: string, name: string)
    requires Fold(k) == name && k != name
    ensures k !in EVENT_TAGS
  {
    TagsFold();
  }

  lemma EventTypes(e: EventItem)
    requires KeysFree(e.config, EVENT_TAGS)
    ensures EventWellTyped(MarshalEvent(e))
            <==> DecActions(Through(EncList(e.actions, EncAction))).Some? && EventVariantsTyped(e.config)
  {
    EventObject(e);
    TagsFold();
    StringsRoundTrip(e.fields);
    KnownTypes(e, "type", DecString);
    KnownTypes(e, "fields", DecStrings);
    KnownTypes(e, "actions", x => DecActions(x));
    CorrelationTypes(e);
  }

  ghost predicate CorrelationWellTyped(obj: map<string, Json>) {
    && (forall k :: k in obj && Fold(k) == "seq" ==> DecSeqs(obj[k]).Some?)
    && WellTyped(obj, "group_by", DecStrings)
    && WellTyped(obj, "max_count", DecNat) && WellTyped(obj, "max_time", DecNat)
  }

  lemma CorrelationTypes(e: EventItem)
    requires KeysFree(e.config, EVENT_TAGS)
    ensures CorrelationWellTyped(MarshalEvent(e)) <==> CorrelationWellTyped(e.config)
  {
    EventObject(e);
    TagsFold();
    StringsRoundTrip(e.groupBy);
    SeqsRoundTrip(e.seqs);
    KnownTypes(e, "seq", x => DecSeqs(x));
    KnownTypes(e, "group_by", DecStrings);
    KnownTypes(e, "max_count", DecNat);
    KnownTypes(e, "max_time", DecNat);
  }

  /** What comes back of the correlation part of an atomic event: what the variants among its
      options make of it. */
  ghost function Correlation(e: EventItem): EventItem
    requires EventVariantsTyped(e.config)
  {
    CorrelationDecodes(e.config);
    e.(seqs := DecSeqs(Listed(e.config, "seq")).value, groupBy := DecStrings(Listed(e.config, "group_by")).value,
       maxCount := DecNat(Scalar(e.config, "max_count")).value, maxTime := DecNat(Scalar(e.config, "max_time")).value)
  }

  lemma CorrelationDecodes(config: Options)
    requires EventVariantsTyped(config)
    ensures DecSeqs(Listed(config, "seq")).Some? && DecStrings(Listed(config, "group_by")).Some?
    ensures DecNat(Scalar(config, "max_count")).Some? && DecNat(Scalar(config, "max_time")).Some?
  {
  }

  ghost function Back(e: EventItem): EventItem
    requires EventVariantsTyped(e.config)
  {
    (if e.kind == "atomic" then Correlation(e) else e).(config := ThroughAll(e.config))
  }

  lemma KnownFields(e: EventItem)
    requires KeysFree(e.config, EVENT_TAGS)
    ensures var obj := MarshalEvent(e);
            && Scalar(obj, "type") == Str(e.kind) && Listed(obj, "fields") == EncStrings(e.fields)
            && Listed(obj, "actions") == Through(EncList(e.actions, EncAction))
  {
    var obj := MarshalEvent(e);
    EventObject(e);
    TagsFold();
    ExactWins(obj, "type", true);
    ExactWins(obj, "fields", false);
    ExactWins(obj, "actions", false);
  }

  lemma CorrelationFields(e: EventItem)
    requires KeysFree(e.config, EVENT_TAGS) && e.kind != "atomic"
    ensures var obj := MarshalEvent(e);
            && Listed(obj, "seq") == EncList(e.seqs, EncSeq) && Listed(obj, "group_by") == EncStrings(e.groupBy)
            && Scalar(obj, "max_count") == Num(e.maxCount) && Scalar(obj, "max_time") == Num(e.maxTime)
  {
    var obj := MarshalEvent(e);
    EventObject(e);
    TagsFold();
    ExactWins(obj, "seq", false);
    ExactWins(obj, "group_by", false);
    ExactWins(obj, "max_count", true);
    ExactWins(obj, "max_time", true);
  }

  lemma VariantField(e: EventItem, name: string, skipNull: bool)
    requires KeysFree(e.config, EVENT_TAGS) && e.kind == "atomic" && name in CORRELATION_TAGS
    ensures FieldOf(MarshalEvent(e), name, skipNull) == FieldOf(e.config, name, skipNull)
  {
    var obj := MarshalEvent(e);
    EventObject(e);
    forall k | Fold(k) == name ensures (k in obj <==> k in e.config) && (k in obj ==> obj[k] == e.config[k]) {
      if k != name {
        EventTagOfVariant(k, name);
      }
    }
    SameVariants(obj, e.config, name, skipNull);
  }

  /** What comes back, for options that keep off "-" and the exact names: the event with every free
      number reprinted, an atomic one with the correlation part that variants among its options
      stand for; nothing at all if such a variant has the wrong type, or some priority of an
      action, reprinted, does not fit its field. */
  lemma EventComesBack(e: EventItem)
    requires KeysFree(e.config, EVENT_TAGS)
    ensures var actions := DecActions(Through(EncList(e.actions, EncAction)));
            UnmarshalEvent(MarshalEvent(e)) ==
            if actions.Some? && EventVariantsTyped(e.config) then Some(Back(e).(actions := actions.value)) else None
  {
    EventTypes(e);
    EventObject(e);
    EventFree(e);
    KnownFields(e);
    StringsRoundTrip(e.fields);
    if EventWellTyped(MarshalEvent(e)) {
      CorrelationBack(e);
    }
  }

  lemma CorrelationBack(e: EventItem)
    requires KeysFree(e.config, EVENT_TAGS) && EventVariantsTyped(e.config)
    ensures var obj := MarshalEvent(e);
            && DecSeqs(Listed(obj, "seq")) == Some(Back(e).seqs)
            && DecStrings(Listed(obj, "group_by")) == Some(Back(e).groupBy)
            && DecNat(Scalar(obj, "max_count")) == Some(Back(e).maxCount)
            && DecNat(Scalar(obj, "max_time")) == Some(Back(e).maxTime)
  {
    if e.kind == "atomic" {
      VariantField(e, "seq", false);
      VariantField(e, "group_by", false);
      VariantField(e, "max_count", true);
      VariantField(e, "max_time", true);
    } else {
      CorrelationFields(e);
      StringsRoundTrip(e.groupBy);
      SeqsRoundTrip(e.seqs);
    }
  }

  /** No variant of a correlation field leaves anything in it. */
  ghost predicate NoVariantValues(config: Options) {
    && Listed(config, "seq").Null? && Listed(config, "group_by").Null?
    && DecNat(Scalar(config, "max_count")) == Some(0) && DecNat(Scalar(config, "max_time")) == Some(0)
  }

  lemma NothingFree(e: EventItem)
    requires !KeysFree(e.config, EVENT_TAGS)
    ensures UnmarshalEvent(MarshalEvent(e)).Some? ==> UnmarshalEvent(MarshalEvent(e)).value.config != e.config
  {
    var back := UnmarshalEvent(MarshalEvent(e));
    if back.Some? {
      assert KeysFree(back.value.config, EVENT_TAGS);
    }
  }

  /** One pass of writing and reading brings an event to its normal form if and only if its options
      keep off "-" and the exact names of the known fields, those that are variants of such a name
      have its type and leave nothing in the correlation part of an atomic event, and the
      priorities of its actions and its options keep their digits. */
  lemma EventRoundTripIff(e: EventItem)
    ensures UnmarshalEvent(MarshalEvent(e)) == Some(Normal(e)) <==>
              && KeysFree(e.config, EVENT_TAGS) && EventVariantsTyped(e.config)
              && (e.kind == "atomic" ==> NoVariantValues(e.config))
              && ActionsKeepDigits(e) && OptionsExact(e.config)
  {
    if !KeysFree(e.config, EVENT_TAGS) {
      NothingFree(e);
    } else {
      EventComesBack(e);
      if EventVariantsTyped(e.config) {
        BackIsNormalIff(e);
      }
    }
  }

  lemma BackIsNormalIff(e: EventItem)
    requires EventVariantsTyped(e.config)
    ensures var actions := DecActions(Through(EncList(e.actions, EncAction)));
            actions.Some? && Back(e).(actions := actions.value) == Normal(e) <==>
              (e.kind == "atomic" ==> NoVariantValues(e.config)) && ActionsKeepDigits(e) && OptionsExact(e.config)
  {
    ActionsRoundTripIff(e.actions);
    OptionsBackIff(e.config);
    if e.kind == "atomic" {
      CorrelationGoneIff(e);
    }
  }

  lemma CorrelationGoneIff(e: EventItem)
    requires EventVariantsTyped(e.config)
    ensures var c := Correlation(e);
            c.seqs.None? && c.groupBy.None? && c.maxCount == 0 && c.maxTime == 0 <==> NoVariantValues(e.config)
  {
    CorrelationDecodes(e.config);
  }

  /** For options in lower case, as the validation of events demands, nothing is left of the
      conditions on variants. */
  lemma LowerCaseEventIff(e: EventItem)
    requires forall k :: k in e.config ==> Fold(k) == k
    ensures UnmarshalEvent(MarshalEvent(e)) == Some(Normal(e)) <==>
              KeysFree(e.config, EVENT_TAGS) && ActionsKeepDigits(e) && OptionsExact(e.config)
  {
    EventRoundTripIff(e);
    if KeysFree(e.config, EVENT_TAGS) {
      NoVariants(e.config);
    }
  }

  lemma NoVariants(config: Options)
    requires KeysFree(config, EVENT_TAGS) && forall k :: k in config ==> Fold(k) == k
    ensures EventVariantsTyped(config) && NoVariantValues(config)
  {
  }

  /** An event comes back unchanged if and only if, besides, its correlation part is what the
      variants among its options stand for when it is atomic. */
  lemma EventUnchangedIff(e: EventItem)
    ensures UnmarshalEvent(MarshalEvent(e)) == Some(e) <==>
              && KeysFree(e.config, EVENT_TAGS) && EventVariantsTyped(e.config)
              && (e.kind == "atomic" ==> Correlation(e) == e)
              && ActionsKeepDigits(e) && OptionsExact(e.config)
  {
    if KeysFree(e.config, EVENT_TAGS) {
      EventComesBack(e);
      ActionsRoundTripIff(e.actions);
      OptionsBackIff(e.config);
    } else {
      NothingFree(e);
    }
  }

  lemma OptionsBackIff(config: Options)
    ensures ThroughAll(config) == config <==> OptionsExact(config)
  {
    if !OptionsExact(config) {
      var k :| k in config && Through(config[k]) != config[k];
      assert ThroughAll(config)[k] != config[k];
    } else {
      assert ThroughAll(config) == config;
    }
  }

  /** So reading undoes writing on normal forms, under the same condition. */
  lemma NormalFormRoundTrip(e: EventItem)
    ensures UnmarshalEvent(MarshalEvent(Normal(e))) == Some(Normal(e)) <==>
              UnmarshalEvent(MarshalEvent(e)) == Some(Normal(e))
    ensures MarshalEvent(Normal(e)) == MarshalEvent(e)
  {
    if e.kind == "atomic" {
      assert MarshalEvent(Normal(e)) == MarshalEvent(e);
    }
  }

  // ---- A second pass ----

  lemma {:induction false} ThroughTwice(v: Json)
    ensures Through(Through(v)) == Through(v)
  {
    match v
    case Num(n) => ReprintTwice(n);
    case List(items) =>
      forall i | 0 <= i < |items| ensures Through(Through(items[i])) == Through(items[i]) {
        ThroughTwice(items[i]);
      }
      assert Through(Through(v)).items == Through(v).items;
    case Obj(fields) =>
      forall k | k in fields ensures Through(Through(fields[k])) == Through(fields[k]) {
        ThroughTwice(fields[k]);
      }
      assert Through(Through(v)).fields == Through(v).fields;
    case _ =>
  }

  lemma ThroughAllTwice(m: Options)
    ensures OptionsExact(ThroughAll(m))
  {
    forall k | k in m ensures Through(Through(m[k])) == Through(m[k]) {
      ThroughTwice(m[k]);
    }
  }

  lemma {:induction false} DecEachSays<T>(items: seq<Json>, dec: Json -> Option<T>)
    requires DecEach(items, dec).Some?
    ensures var xs := DecEach(items, dec).value;
            |xs| == |items| && forall i :: 0 <= i < |xs| ==> dec(items[i]) == Some(xs[i])
  {
    if items != [] {
      DecEachSays(items[1..], dec);
      var rest := DecEach(items[1..], dec).value;
      var xs := DecEach(items, dec).value;
      forall i | 0 < i < |xs| ensures dec(items[i]) == Some(xs[i]) {
        assert items[1..][i - 1] == items[i] && xs[i] == rest[i - 1];
      }
    }
  }

  /** The actions that came back once keep their digits. */
  lemma ActionsSettle(actions: Option<seq<EventAction>>)
    requires DecActions(Through(EncList(actions, EncAction))).Some?
    ensures var back := DecActions(Through(EncList(actions, EncAction))).value;
            back.Some? ==> forall a <- back.value :: KeepsItsDigits(a.priority)
  {
    if actions.Some? {
      var xs, items := actions.value, Through(EncList(actions, EncAction)).items;
      var dec: Json -> Option<EventAction> := x => DecAction(x);
      DecEachSays(items, dec);
      var back := DecEach(items, dec).value;
      forall i | 0 <= i < |back| ensures KeepsItsDigits(back[i].priority) {
        assert items[i] == Through(EncAction(xs[i]));
        EventActionComesBack(xs[i]);
        ReprintTwice(xs[i].priority);
      }
    }
  }

  /** Whatever an event's numbers: what one pass gives back, the next leaves alone if and only if
      the variants among its options, if any, still stand for the same. */
  lemma SecondPassIff(e: EventItem)
    requires KeysFree(e.config, EVENT_TAGS) && UnmarshalEvent(MarshalEvent(e)).Some?
    ensures var e' := UnmarshalEvent(MarshalEvent(e)).value;
            UnmarshalEvent(MarshalEvent(e')) == Some(e') <==>
              EventVariantsTyped(e'.config) && (e'.kind == "atomic" ==> Correlation(e') == e')
  {
    EventComesBack(e);
    var e' := UnmarshalEvent(MarshalEvent(e)).value;
    ThroughAllTwice(e.config);
    ActionsSettle(e.actions);
    EventUnchangedIff(e');
  }

  /** Without variants a second pass changes nothing. */
  lemma SecondPassChangesNothing(e: EventItem)
    requires KeysApart(e.config, EVENT_TAGS) && UnmarshalEvent(MarshalEvent(e)).Some?
    ensures var e' := UnmarshalEvent(MarshalEvent(e)).value;
            UnmarshalEvent(MarshalEvent(e')) == Some(e')
  {
    ApartMeansNothing(e.config);
    EventComesBack(e);
    var e' := UnmarshalEvent(MarshalEvent(e)).value;
    SecondPassIff(e);
    NoCorrelation(e);
    NoCorrelation(e');
  }

  lemma NoCorrelation(e: EventItem)
    requires KeysApart(e.config, EVENT_TAGS) && EventVariantsTyped(e.config)
    ensures Correlation(e) == e.(seqs := None, groupBy := None, maxCount := 0, maxTime := 0)
  {
    ApartMeansNothing(e.config);
    CorrelationGoneIff(e);
  }

  lemma ApartMeansNothing(config: Options)
    requires KeysApart(config, EVENT_TAGS)
    ensures KeysFree(config, EVENT_TAGS) && EventVariantsTyped(config) && NoVariantValues(config)
  {
    TagsFold();
  }

  // ---- Items as the program has them: read from JSON, or merged from such ----

  /** Reading drops the key "-" and the known names from the options, and leaves options that a
      further pass does not change. */
  lemma ReadOptionsFree(obj: map<string, Json>, tags: set<string>)
    ensures KeysFree(FreeOptions(obj, tags), tags) && OptionsExact(FreeOptions(obj, tags))
  {
    forall k | k in obj ensures Through(Through(obj[k])) == Through(obj[k]) {
      ThroughTwice(obj[k]);
    }
  }

  /** What a merge of an old configuration into a new one does: the new names, with the old values
      where there are some. */
  function ClearMapKeys(cur: Options, def: Options): Options {
    map k | k in def :: if k in cur then cur[k] else def[k]
  }

  lemma MergedOptionsFree(cur: Options, def: Options, tags: set<string>)
    requires KeysFree(def, tags) && OptionsExact(cur) && OptionsExact(def)
    ensures KeysFree(ClearMapKeys(cur, def), tags) && OptionsExact(ClearMapKeys(cur, def))
  {
  }

  /** A client's key "-" is gone with the first read: it is not written again. */
  lemma DashIsLost(obj: map<string, Json>)
    requires "-" in obj && UnmarshalAction(obj).Some?
    ensures "-" !in MarshalAction(UnmarshalAction(obj).value)
  {
    ReadOptionsFree(obj, ACTION_TAGS);
    ActionObject(UnmarshalAction(obj).value);
  }

  /** An item that was read from JSON comes back from every further pass if and only if options
      that are case variants of a known name have its type and the priority keeps its digits. */
  lemma ReadActionComesBackIff(obj: map<string, Json>)
    requires UnmarshalAction(obj).Some?
    ensures var a := UnmarshalAction(obj).value;
            UnmarshalAction(MarshalAction(a)) == Some(a) <==> VariantsTyped(a.config) && KeepsItsDigits(a.priority)
  {
    ReadOptionsFree(obj, ACTION_TAGS);
    ActionRoundTripIff(UnmarshalAction(obj).value);
  }

  const MAX_PRIORITY := 100

  /** So every item that was read from JSON and passes validation comes back. */
  lemma ValidActionComesBack(obj: map<string, Json>)
    requires UnmarshalAction(obj).Some?
    requires var a := UnmarshalAction(obj).value;
             a.priority <= MAX_PRIORITY && forall k :: k in a.config ==> Fold(k) == k
    ensures var a := UnmarshalAction(obj).value;
            UnmarshalAction(MarshalAction(a)) == Some(a)
  {
    var a := UnmarshalAction(obj).value;
    ReadOptionsFree(obj, ACTION_TAGS);
    SmallSurvivesIff(a.priority);
    LowerCaseActionIff(a);
  }

  lemma ReadEventComesBackIff(obj: map<string, Json>)
    requires UnmarshalEvent(obj).Some?
    ensures var e := UnmarshalEvent(obj).value;
            UnmarshalEvent(MarshalEvent(e)) == Some(Normal(e)) <==>
              EventVariantsTyped(e.config) && (e.kind == "atomic" ==> NoVariantValues(e.config)) && ActionsKeepDigits(e)
  {
    ReadOptionsFree(obj, EVENT_TAGS);
    EventRoundTripIff(UnmarshalEvent(obj).value);
  }

  /** So every event that was read from JSON and passes validation comes back in its normal form. */
  lemma ValidEventComesBack(obj: map<string, Json>)
    requires UnmarshalEvent(obj).Some?
    requires var e := UnmarshalEvent(obj).value;
             && (e.actions.Some? ==> forall a <- e.actions.value :: a.priority <= MAX_PRIORITY)
             && forall k :: k in e.config ==> Fold(k) == k
    ensures var e := UnmarshalEvent(obj).value;
            UnmarshalEvent(MarshalEvent(e)) == Some(Normal(e))
  {
    var e := UnmarshalEvent(obj).value;
    ReadOptionsFree(obj, EVENT_TAGS);
    if e.actions.Some? {
      forall a | a in e.actions.value ensures KeepsItsDigits(a.priority) {
        SmallSurvivesIff(a.priority);
      }
    }
    LowerCaseEventIff(e);
  }

  // ---- The loops over the options ----

  method JoinOptions(known: map<string, Json>, config: Options) returns (raw: map<string, Json>)
    ensures raw == known + config
  {
    raw := known;
    var rest := config.Keys;
    while rest != {}
      invariant rest <= config.Keys
      invariant raw == known + (map k | k in config && k !in rest :: config[k])
      decreases |rest|
    {
      var k :| k in rest;
      raw := raw[k := config[k]];
      rest := rest - {k};
    }
    assert (map k | k in config && k !in rest :: config[k]) == config;
  }

  method SplitOptions(raw: map<string, Json>, excludeKeys: seq<string>) returns (config: Options)
    ensures config == map k | k in raw && k !in excludeKeys :: Through(raw[k])
  {
    config := map[];
    var rest := raw.Keys;
    while rest != {}
      invariant rest <= raw.Keys
      invariant config == map k | k in raw && k !in rest && k !in excludeKeys :: Through(raw[k])
      decreases |rest|
    {
      var k :| k in rest;
      if k !in excludeKeys {
        config := config[k := Through(raw[k])];
      }
      rest := rest - {k};
    }
  }

  method MarshalActionItem(a: ActionItem) returns (raw: map<string, Json>)
    ensures raw == MarshalAction(a)
  {
    raw := ThroughAll(map["priority" := Num(a.priority), "fields" := EncStrings(a.fields)]);
    raw := JoinOptions(raw, a.config);
  }

  method MarshalEventItem(e: EventItem) returns (raw: map<string, Json>)
    ensures raw == MarshalEvent(e)
  {
    raw := ThroughAll(map["type" := Str(e.kind), "fields" := EncStrings(e.fields),
                          "actions" := EncList(e.actions, EncAction)]);
    raw := JoinOptions(raw, e.config);
    if e.kind != "atomic" {
      raw := raw["max_count" := Num(e.maxCount)];
      raw := raw["max_time" := Num(e.maxTime)];
      raw := raw["group_by" := EncStrings(e.groupBy)];
      raw := raw["seq" := EncList(e.seqs, EncSeq)];
    } else {
      raw := raw - {"max_count"};
      raw := raw - {"max_time"};
      raw := raw - {"group_by"};
      raw := raw - {"seq"};
    }
  }

  method ActionOptions(raw: map<string, Json>) returns (config: Options)
    ensures config == FreeOptions(raw, ACTION_TAGS)
  {
    config := SplitOptions(raw, ["priority", "fields", "-"]);
  }

  method EventOptions(raw: map<string, Json>) returns (config: Options)
    ensures config == FreeOptions(raw, EVENT_TAGS)
  {
    config := SplitOptions(raw, ["type", "fields", "actions", "seq", "group_by", "max_count", "max_time", "-"]);
  }

  /** The options of an action through one pass: they come back if and only if they keep off "-" and
      the known names and their numbers keep their digits. */
  method ActionOptionsThrough(a: ActionItem) returns (config: Options)
    ensures config == a.config <==> KeysFree(a.config, ACTION_TAGS) && OptionsExact(a.config)
  {
    var raw := MarshalActionItem(a);
    config := ActionOptions(raw);
    OptionsThroughIff(a.config, raw, ACTION_TAGS, config);
  }

  method EventOptionsThrough(e: EventItem) returns (config: Options)
    ensures config == e.config <==> KeysFree(e.config, EVENT_TAGS) && OptionsExact(e.config)
  {
    var raw := MarshalEventItem(e);
    config := EventOptions(raw);
    OptionsThroughIff(e.config, raw, EVENT_TAGS, config);
  }

  /** An object that holds exactly the options beside the known names gives them back. */
  lemma OptionsThroughIff(config: Options, raw: map<string, Json>, tags: set<string>, back: Options)
    requires back == FreeOptions(raw, tags)
    requires KeysFree(config, tags) ==>
               raw.Keys - tags == config.Keys && forall k :: k in config ==> raw[k] == config[k]
    ensures back == config <==> KeysFree(config, tags) && OptionsExact(config)
  {
    if KeysFree(config, tags) {
      assert back == ThroughAll(config);
      OptionsBackIff(config);
    }
  }
}
