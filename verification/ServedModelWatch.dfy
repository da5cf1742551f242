/** Watching the served-model store: emitIfChanged and its one-slot change channel. */
module ServedModelWatch {
  import opened ServedModel

  /** A listing of a namespace: an error when it has no record but other namespaces do. */
  predicate Mismatch(c: Content, namespace: string) {
    namespace != "" && c.items != map[] && forall name :: name in c.items ==> c.items[name].namespace != namespace
  }

  /** The version of a listing. */
  function Listing(c: Content, namespace: string): Result<int> {
    if Mismatch(c, namespace) then Err(NamespaceMismatch) else Ok(c.version)
  }

  /** The watcher's last version, its channel, whether a file event is waiting, and on the other
      side whether the consumer has taken a change and not yet listed, and what it last listed. */
  datatype State = State(file: Content, last: int, slot: seq<int>, event: bool, taken: bool, listed: int)

  datatype Event =
    | Write(op: Op, faults: Faults)
    | FileEvent
    | Take
    | List

  function Next(s: State, namespace: string, e: Event): State {
    match e
    case Write(op, faults) =>
      var after := ServedModel.Next(s.file, op, faults);
      s.(file := after, event := s.event || after != s.file)
    case FileEvent => EmitIfChanged(s, namespace)
    case Take => if s.slot == [] then s else s.(slot := [], taken := true)
    case List =>
      match Listing(s.file, namespace)
      case Err(_) => s.(taken := false)
      case Ok(version) => s.(taken := false, listed := version)
  }

  /** The event is used up; a new version is remembered, and sent unless the channel is full. */
  function EmitIfChanged(s: State, namespace: string): State {
    var t := s.(event := false);
    var listing := Listing(s.file, namespace);
    if !s.event || listing.Err? || listing.value == s.last then t
    else if s.slot == [] then t.(last := listing.value, slot := [listing.value])
    else t.(last := listing.value)
  }

  function After(s: State, namespace: string, es: seq<Event>): State {
    if es == [] then s else Next(After(s, namespace, es[..|es| - 1]), namespace, es[|es| - 1])
  }

  /** A watch started from a listing of the namespace; the first check is a file event. */
  predicate Started(s: State, namespace: string) {
    s.slot == [] && s.event && !s.taken && s.listed == s.last <= s.file.version
    && (s.last == s.file.version ==> !Mismatch(s.file, namespace))
  }

  ghost predicate Following(s: State, namespace: string) {
    && |s.slot| <= 1 && s.last <= s.file.version && s.listed <= s.file.version
    && (s.listed < s.last ==> s.slot != [] || s.taken || s.last < s.file.version)
    && (s.last < s.file.version ==> s.event || Mismatch(s.file, namespace))
    && (s.last == s.file.version ==> !Mismatch(s.file, namespace))
  }

  lemma StepFollowing(s: State, namespace: string, e: Event)
    requires Following(s, namespace)
    ensures Following(Next(s, namespace, e), namespace)
  {
    if e.Write? {
      var step := Step(e.op, e.faults);
      VersionDeterminesItems(s.file, [step]);
      assert [step][..0] == [];
      assert ServedModel.After(s.file, [step]) == ServedModel.Next(s.file, e.op, e.faults);
    }
  }

  lemma {:induction false} RunFollowing(s: State, namespace: string, es: seq<Event>)
    requires Following(s, namespace)
    ensures Following(After(s, namespace, es), namespace)
  {
    if es != [] {
      RunFollowing(s, namespace, es[..|es| - 1]);
      StepFollowing(After(s, namespace, es[..|es| - 1]), namespace, es[|es| - 1]);
    }
  }

  /** No change is missed although sends on a full channel are dropped: once the file events and
      the channel are drained, the consumer has listed the current version, unless its namespace
      has no record left among others', where every listing fails. */
  lemma NothingMissed(s: State, namespace: string, es: seq<Event>)
    requires Started(s, namespace)
    requires var t := After(s, namespace, es); t.slot == [] && !t.event && !t.taken
    ensures var t := After(s, namespace, es);
            t.listed == t.file.version <==>
            || namespace == "" || t.file.items == map[]
            || exists name :: name in t.file.items && t.file.items[name].namespace == namespace
  {
    RunFollowing(s, namespace, es);
    var t := After(s, namespace, es);
    if t.listed == t.file.version && Mismatch(t.file, namespace) {
      ListedMatches(s, namespace, es);
    }
  }

  /** It happens: deleting a namespace's only record, while others have some, is not seen by a watch of it. */
  lemma LastDeletionMissed(s: State, namespace: string, name: string, other: string)
    requires Started(s, namespace) && s.last == s.file.version && namespace != ""
    requires name in s.file.items && other in s.file.items && other != name
    requires forall n :: n in s.file.items && n != name ==> s.file.items[n].namespace != namespace
    ensures var t := After(s, namespace, [Write(Delete(name), Faults(false, false, false))] + [FileEvent]);
            && t.slot == [] && !t.event && !t.taken && t.listed < t.file.version && Mismatch(t.file, namespace)
  {
    var e := Write(Delete(name), Faults(false, false, false));
    Snoc(s, namespace, [], e);
    assert [] + [e] == [e];
    Snoc(s, namespace, [e], FileEvent);
    assert other in After(s, namespace, [e]).file.items;
  }

  /** A version the consumer has listed was listed without error. */
  lemma {:induction false} ListedMatches(s: State, namespace: string, es: seq<Event>)
    requires Started(s, namespace)
    ensures var t := After(s, namespace, es); t.listed == t.file.version ==> !Mismatch(t.file, namespace)
    ensures var t := After(s, namespace, es); t.listed <= t.file.version
  {
    if es != [] {
      var init, e := es[..|es| - 1], es[|es| - 1];
      ListedMatches(s, namespace, init);
      if e.Write? {
        var t := After(s, namespace, init);
        VersionDeterminesItems(t.file, [Step(e.op, e.faults)]);
        assert [Step(e.op, e.faults)][..0] == [];
        assert ServedModel.After(t.file, [Step(e.op, e.faults)]) == ServedModel.Next(t.file, e.op, e.faults);
      }
    }
  }

  lemma Snoc(s: State, namespace: string, es: seq<Event>, e: Event)
    ensures After(s, namespace, es + [e]) == Next(After(s, namespace, es), namespace, e)
  {
    assert (es + [e])[..|es|] == es;
  }

  /** A check has found a new version and the channel full since the version in it was sent. */
  predicate DroppedSince(s: State, namespace: string, es: seq<Event>) {
    es != [] &&
    var (before, e) := (After(s, namespace, es[..|es| - 1]), es[|es| - 1]);
    var newer := before.event && Listing(before.file, namespace).Ok? &&
                 Listing(before.file, namespace).value != before.last;
    match e
    case Take => before.slot == [] && DroppedSince(s, namespace, es[..|es| - 1])
    case FileEvent => if newer then before.slot != [] else DroppedSince(s, namespace, es[..|es| - 1])
    case _ => DroppedSince(s, namespace, es[..|es| - 1])
  }

  /** Exactly when the version waiting in the channel is older than the last one seen. */
  lemma {:induction false} WaitingIsOldIff(s: State, namespace: string, es: seq<Event>)
    requires Started(s, namespace) && After(s, namespace, es).slot != []
    ensures var t := After(s, namespace, es);
            t.slot[0] <= t.last && (t.slot[0] < t.last <==> DroppedSince(s, namespace, es))
  {
    var (init, e) := (es[..|es| - 1], es[|es| - 1]);
    RunFollowing(s, namespace, init);
    if After(s, namespace, init).slot != [] {
      WaitingIsOldIff(s, namespace, init);
    }
  }

  /** The version in the channel may be old: two changes while the consumer is busy leave the first. */
  lemma DeliveredVersionMayBeOld(s: State, a: Op, b: Op)
    requires Started(s, "")
    requires var ok := Faults(false, false, false);
             var f := ServedModel.Next(s.file, a, ok);
                     f.version > s.file.version && ServedModel.Next(f, b, ok).version > f.version
    ensures var ok := Faults(false, false, false);
            var t := After(s, "", [Write(a, ok)] + [FileEvent] + [Write(b, ok)] + [FileEvent]);
            |t.slot| == 1 && t.slot[0] < t.file.version && t.last == t.file.version
  {
    var ok := Faults(false, false, false);
    Snoc(s, "", [], Write(a, ok));
    assert [] + [Write(a, ok)] == [Write(a, ok)];
    Snoc(s, "", [Write(a, ok)], FileEvent);
    Snoc(s, "", [Write(a, ok)] + [FileEvent], Write(b, ok));
    Snoc(s, "", [Write(a, ok)] + [FileEvent] + [Write(b, ok)], FileEvent);
  }
}
