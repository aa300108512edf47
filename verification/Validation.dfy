/** What the options a caller passes come to: validate/2 term by term, and the socket's options after
    setopts/2. */
module Validation {
  import opened Bytes
  import opened Options

  /** What an option can be about. */
  datatype Topic =
    | AboutMode | AboutAddress | AboutFamily | AboutPort | AboutTimeout
    | AboutActive | AboutPacket | AboutHeader | AboutSndbuf | AboutRecbuf

  /** An address is about the family too. */
  predicate About(t: OptTerm, topic: Topic) {
    match topic
    case AboutMode => t.ModeOpt?
    case AboutAddress => t.IpOpt?
    case AboutFamily => t.FamilyOpt? || t.IpOpt?
    case AboutPort => t.PortOpt?
    case AboutTimeout => t.SendTimeoutOpt?
    case AboutActive => t.ActiveOpt?
    case AboutPacket => t.PacketOpt?
    case AboutHeader => t.HeaderOpt?
    case AboutSndbuf => t.SndbufOpt?
    case AboutRecbuf => t.RecbufOpt?
  }

  /** The last term about a topic. */
  function LastAbout(terms: seq<OptTerm>, topic: Topic): (r: Option<OptTerm>)
    ensures r.Some? ==> About(r.value, topic)
  {
    if terms == [] then None
    else if About(terms[|terms| - 1], topic) then Some(terms[|terms| - 1])
    else LastAbout(terms[..|terms| - 1], topic)
  }

  lemma LastAboutSnoc(terms: seq<OptTerm>, t: OptTerm, topic: Topic)
    ensures LastAbout(terms + [t], topic) == if About(t, topic) then Some(t) else LastAbout(terms, topic)
  {
    assert (terms + [t])[..|terms|] == terms;
  }

  /** A term that is acceptable on its own. */
  predicate InRange(t: OptTerm) {
    match t
    case ModeOpt(m) => m.Some?
    case IpOpt(resolved) => resolved.Some?
    case PortOpt(p) => 0 <= p < 65536
    case FamilyOpt(_) => true
    case SendTimeoutOpt(infinite, ms) => infinite || ms > 0
    case ActiveOpt(a) => a.Some?
    case PacketOpt(p) => p == 0 || p == 1 || p == 2 || p == 4
    case HeaderOpt(n) => 0 < n < 65536
    case SndbufOpt(n) => n > 0
    case RecbufOpt(n) => n > 0
  }

  predicate AllInRange(terms: seq<OptTerm>) {
    forall i :: 0 <= i < |terms| ==> InRange(terms[i])
  }

  /** A family named after an address of the other family. */
  predicate ClashesAfter(front: seq<OptTerm>, t: OptTerm) {
    var address := LastAbout(front, AboutAddress);
    t.FamilyOpt? && address.Some? && address.value.resolved.Some? && address.value.resolved.value.0 != t.family
  }

  predicate NoClash(terms: seq<OptTerm>) {
    forall i :: 0 <= i < |terms| ==> !ClashesAfter(terms[..i], terms[i])
  }

  /** A header size has binary mode beside it. */
  predicate HeaderInBinary(terms: seq<OptTerm>) {
    LastAbout(terms, AboutHeader).Some? ==> LastAbout(terms, AboutMode) == Some(ModeOpt(Some(BinaryMode)))
  }

  /** What the terms ask for: of each topic, what the last term about it says. */
  function Asked(terms: seq<OptTerm>): UtpOptions
    requires AllInRange(terms)
  {
    LastInRange(terms);
    UtpOptions(
      match LastAbout(terms, AboutMode) case None => None case Some(t) => t.mode,
      match LastAbout(terms, AboutAddress) case None => None case Some(t) => Some(t.resolved.value.1),
      match LastAbout(terms, AboutPort) case None => None case Some(t) => Some(t.port),
      match LastAbout(terms, AboutFamily)
      case None => None
      case Some(t) => Some(if t.FamilyOpt? then t.family else t.resolved.value.0),
      match LastAbout(terms, AboutTimeout)
      case None => None
      case Some(t) => Some(if t.infinite then Infinity else Millis(t.ms)),
      match LastAbout(terms, AboutActive) case None => None case Some(t) => t.active,
      match LastAbout(terms, AboutPacket) case None => None case Some(t) => Some(t.size),
      match LastAbout(terms, AboutHeader) case None => None case Some(t) => Some(t.size),
      match LastAbout(terms, AboutSndbuf) case None => None case Some(t) => Some(t.size),
      match LastAbout(terms, AboutRecbuf) case None => None case Some(t) => Some(t.size))
  }

  lemma {:induction false} LastInRangeOf(terms: seq<OptTerm>, topic: Topic)
    requires AllInRange(terms)
    ensures LastAbout(terms, topic).Some? ==> InRange(LastAbout(terms, topic).value)
    decreases |terms|
  {
    if terms != [] {
      LastInRangeOf(terms[..|terms| - 1], topic);
    }
  }

  lemma LastInRange(terms: seq<OptTerm>)
    requires AllInRange(terms)
    ensures forall topic :: LastAbout(terms, topic).Some? ==> InRange(LastAbout(terms, topic).value)
  {
    forall topic: Topic
      ensures LastAbout(terms, topic).Some? ==> InRange(LastAbout(terms, topic).value)
    {
      LastInRangeOf(terms, topic);
    }
  }

  // ---------------------------------------------------------------- validation, from the front

  /** The terms one after the other, without the last check. */
  function Fold(terms: seq<OptTerm>, o: UtpOptions): Option<UtpOptions>
    decreases |terms|
  {
    if terms == [] then Some(o)
    else
      match ValidateTerm(terms[0], o)
      case None => None
      case Some(next) => Fold(terms[1..], next)
  }

  lemma {:induction false} ValidateFolds(terms: seq<OptTerm>, o: UtpOptions)
    ensures Validate(terms, o) ==
            match Fold(terms, o)
            case None => None
            case Some(r) => if r.header.None? || r.mode == Some(BinaryMode) then Some(r) else None
    decreases |terms|
  {
    if terms != [] {
      var next := ValidateTerm(terms[0], o);
      if next.Some? {
        ValidateFolds(terms[1..], next.value);
      }
    }
  }

  lemma {:induction false} FoldSnoc(terms: seq<OptTerm>, t: OptTerm, o: UtpOptions)
    ensures Fold(terms + [t], o) == (match Fold(terms, o) case None => None case Some(r) => ValidateTerm(t, r))
    decreases |terms|
  {
    if terms == [] {
      assert terms + [t] == [t] && [t][1..] == [];
      assert Fold([t], o) == (match ValidateTerm(t, o) case None => None case Some(next) => Fold([], next));
    } else {
      assert (terms + [t])[1..] == terms[1..] + [t];
      var next := ValidateTerm(terms[0], o);
      if next.Some? {
        FoldSnoc(terms[1..], t, next.value);
      }
    }
  }

  /** Family and address of what was asked for go together. */
  predicate FamilyFits(terms: seq<OptTerm>)
    requires AllInRange(terms)
  {
    LastInRange(terms);
    var address := LastAbout(terms, AboutAddress);
    address.Some? ==> Asked(terms).family == Some(address.value.resolved.value.0)
  }

  lemma AskedSnoc(terms: seq<OptTerm>, t: OptTerm)
    requires AllInRange(terms) && InRange(t)
    ensures AllInRange(terms + [t])
    ensures FamilyFits(terms) && !ClashesAfter(terms, t) ==>
              FamilyFits(terms + [t]) && ValidateTerm(t, Asked(terms)) == Some(Asked(terms + [t]))
    ensures FamilyFits(terms) && ClashesAfter(terms, t) ==> ValidateTerm(t, Asked(terms)) == None
  {
    if FamilyFits(terms) {
      if ClashesAfter(terms, t) {
        ClashRefused(terms, t);
      } else {
        AskedNext(terms, t);
      }
    }
    hide InRange, FamilyFits, ClashesAfter, ValidateTerm, Asked, LastAbout;
  }

  lemma ClashRefused(terms: seq<OptTerm>, t: OptTerm)
    requires AllInRange(terms) && FamilyFits(terms) && ClashesAfter(terms, t)
    ensures ValidateTerm(t, Asked(terms)) == None
  {
    hide LastAbout;
  }

  lemma AskedNext(terms: seq<OptTerm>, t: OptTerm)
    requires AllInRange(terms) && InRange(t) && AllInRange(terms + [t])
    requires FamilyFits(terms) && !ClashesAfter(terms, t)
    ensures FamilyFits(terms + [t]) && ValidateTerm(t, Asked(terms)) == Some(Asked(terms + [t]))
  {
    hide LastAbout, AllInRange;
    forall topic: Topic
      ensures LastAbout(terms + [t], topic) == if About(t, topic) then Some(t) else LastAbout(terms, topic)
    {
      LastAboutSnoc(terms, t, topic);
    }
    LastInRange(terms);
    LastInRange(terms + [t]);
  }

  lemma OutOfRange(t: OptTerm, o: UtpOptions)
    ensures !InRange(t) ==> ValidateTerm(t, o) == None
  {
  }

  lemma NoClashSnoc(terms: seq<OptTerm>, t: OptTerm)
    ensures NoClash(terms + [t]) <==> NoClash(terms) && !ClashesAfter(terms, t)
    ensures AllInRange(terms + [t]) <==> AllInRange(terms) && InRange(t)
  {
    var all := terms + [t];
    assert all[..|terms|] == terms && all[|terms|] == t;
    assert forall i :: 0 <= i < |terms| ==> all[..i] == terms[..i] && all[i] == terms[i];
    hide ClashesAfter;
    if NoClash(terms) && !ClashesAfter(terms, t) {
      forall i | 0 <= i < |all|
        ensures !ClashesAfter(all[..i], all[i])
      {
        if i < |terms| {
          assert !ClashesAfter(terms[..i], terms[i]);
        }
      }
    }
    if NoClash(all) {
      forall i | 0 <= i < |terms|
        ensures !ClashesAfter(terms[..i], terms[i])
      {
        assert !ClashesAfter(all[..i], all[i]);
      }
      assert !ClashesAfter(all[..|terms|], all[|terms|]);
    }
  }

  lemma {:induction false} FoldExactly(terms: seq<OptTerm>)
    ensures Fold(terms, NO_OPTIONS).Some? <==> AllInRange(terms) && NoClash(terms)
    ensures AllInRange(terms) && NoClash(terms) ==> Fold(terms, NO_OPTIONS) == Some(Asked(terms)) && FamilyFits(terms)
    decreases |terms|
  {
    if terms != [] {
      var front, t := terms[..|terms| - 1], terms[|terms| - 1];
      assert terms == front + [t];
      FoldExactly(front);
      FoldSnoc(front, t, NO_OPTIONS);
      NoClashSnoc(front, t);
      hide Fold, Asked, ValidateTerm, ClashesAfter, FamilyFits, InRange, NoClash, AllInRange;
      if AllInRange(front) && NoClash(front) {
        if InRange(t) {
          AskedSnoc(front, t);
        } else {
          OutOfRange(t, Asked(front));
        }
      }
    }
  }

  /** Validation lets a list of options through exactly if each is in range, no family clashes with an address
      named before it, and a header size comes with binary mode; and what it makes of them is, topic by topic,
      what the last option about it says. */
  lemma ValidateExactly(terms: seq<OptTerm>)
    ensures Validate(terms, NO_OPTIONS).Some? <==> AllInRange(terms) && NoClash(terms) && HeaderInBinary(terms)
    ensures AllInRange(terms) && NoClash(terms) && HeaderInBinary(terms) ==>
              Validate(terms, NO_OPTIONS) == Some(Asked(terms))
  {
    ValidateFolds(terms, NO_OPTIONS);
    FoldExactly(terms);
    hide Fold, NoClash, ValidateTerm;
    if AllInRange(terms) {
      LastInRange(terms);
    }
  }

  // ---------------------------------------------------------------- to the driver

  /** The socket's options after the terms: of each topic what the last term about it says, cut to the width of
      the encoding, or what it was. */
  function Adjusted(so: SockOpts, terms: seq<OptTerm>): SockOpts
    requires AllInRange(terms)
  {
    LastInRange(terms);
    so.(
      mode := (match LastAbout(terms, AboutMode) case None => so.mode case Some(t) => t.mode.value),
      sendTmout := (match LastAbout(terms, AboutTimeout)
                    case None => so.sendTmout
                    case Some(t) => if t.infinite then -1 else t.ms % 0x1_0000_0000),
      active := (match LastAbout(terms, AboutActive) case None => so.active case Some(t) => t.active.value),
      packet := (match LastAbout(terms, AboutPacket) case None => so.packet case Some(t) => t.size),
      header := (match LastAbout(terms, AboutHeader) case None => so.header case Some(t) => t.size),
      sndbuf := (match LastAbout(terms, AboutSndbuf)
                 case None => so.sndbuf
                 case Some(t) => ToInt32(t.size % 0x1_0000_0000)),
      recbuf := (match LastAbout(terms, AboutRecbuf)
                 case None => so.recbuf
                 case Some(t) => ToInt32(t.size % 0x1_0000_0000)))
  }

  /** setopts/2 sends the driver a binary exactly for options that validate and are about neither address, port
      nor family; and the driver then sets each field to what the caller's last option about it says, and leaves
      the others. */
  lemma SetOptsExactly(current: SockOpts, terms: seq<OptTerm>)
    requires ResolverContract(terms)
    ensures SetOptsRequest(terms).Some? <==>
              && AllInRange(terms) && NoClash(terms) && HeaderInBinary(terms)
              && LastAbout(terms, AboutAddress).None? && LastAbout(terms, AboutPort).None?
              && LastAbout(terms, AboutFamily).None?
    ensures SetOptsRequest(terms).Some? ==>
              AllInRange(terms) && Merge(current, SetOptsRequest(terms).value) == Some(Adjusted(current, terms))
  {
    hide Validate, Merge, OptionsToBinary, Adjusted, NoClash, HeaderInBinary;
    ValidateExactly(terms);
    if SetOptsRequest(terms).Some? {
      ValidateSound(terms, NO_OPTIONS);
      MergedRecord(current, Asked(terms));
      AdjustedIsDecoded(current, terms);
    }
  }

  lemma AdjustedIsDecoded(current: SockOpts, terms: seq<OptTerm>)
    requires AllInRange(terms)
    requires Asked(terms).ip.None? && Asked(terms).port.None? && Asked(terms).family.None?
    ensures Decoded(current, Asked(terms)) == Adjusted(current, terms)
  {
    LastInRange(terms);
    hide LastAbout;
  }

  lemma MergedRecord(current: SockOpts, o: UtpOptions)
    requires Validated(o) && o.ip.None? && o.port.None? && o.family.None?
    ensures Merge(current, OptionsToBinary(o)) == Some(Decoded(current, o))
  {
    hide OptionsToBinary, ApplyAll, Items, Decoded;
    MergeRefusesAddresses(current, o);
    OptionsRoundTrip(o);
    DecodedRecord(current, o);
  }
}
