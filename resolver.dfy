/**
 * The metadata resolver of the I/O manager: reads the detector site, the
 * horn polarity and the flux configuration out of an identifying string
 * (a directory name, a file name, ...). Each attribute is decided by an
 * ordered, first-match-wins, case-sensitive substring test. Where the
 * original ends the process because an attribute matched nothing, the
 * model returns an error naming that attribute.
 */
module MetadataResolver {
  import opened Outcomes
  import opened Text

  datatype Detector = FD | ND
  datatype Horn = FHC | RHC
  datatype Flux = Fluxswap | Nonswap | Combined

  /** The identification triple returned on success. */
  datatype Identification = Identification(detector: Detector, horn: Horn, flux: Flux)

  /** The attribute that could not be classified. */
  datatype Attribute = DetectorAttribute | HornAttribute | FluxAttribute

  datatype ResolveError = Unclassified(attribute: Attribute, input: string)

  /** The string the original returns for each value; it is also the keyword searched for. */
  function DetectorName(d: Detector): string
  {
    match d
    case FD => "FD"
    case ND => "ND"
  }

  function HornName(h: Horn): string
  {
    match h
    case FHC => "FHC"
    case RHC => "RHC"
  }

  function FluxName(f: Flux): string
  {
    match f
    case Fluxswap => "Fluxswap"
    case Nonswap => "Nonswap"
    case Combined => "Combined"
  }

  /** The three strings the original returns, in its order (det, horn, flux). */
  function Names(id: Identification): (r: (string, string, string))
    ensures r.0 in {"FD", "ND"}
    ensures r.1 in {"FHC", "RHC"}
    ensures r.2 in {"Fluxswap", "Nonswap", "Combined"}
  {
    (DetectorName(id.detector), HornName(id.horn), FluxName(id.flux))
  }

  /** "FD" is checked before "ND". */
  function ResolveDetector(s: string): (r: Option<Detector>)
    ensures r.Some? ==> Contains(s, DetectorName(r.value))
  {
    if Contains(s, "FD") then Some(FD)
    else if Contains(s, "ND") then Some(ND)
    else None
  }

  /** "FHC" is checked before "RHC". */
  function ResolveHorn(s: string): (r: Option<Horn>)
    ensures r.Some? ==> Contains(s, HornName(r.value))
  {
    if Contains(s, "FHC") then Some(FHC)
    else if Contains(s, "RHC") then Some(RHC)
    else None
  }

  /** "Fluxswap" is checked before "Nonswap", which is checked before "Combined". */
  function ResolveFlux(s: string): (r: Option<Flux>)
    ensures r.Some? ==> Contains(s, FluxName(r.value))
  {
    if Contains(s, "Fluxswap") then Some(Fluxswap)
    else if Contains(s, "Nonswap") then Some(Nonswap)
    else if Contains(s, "Combined") then Some(Combined)
    else None
  }

  /**
   * IOManager.get_det_horn_and_flux_from_string. Attributes are decided in
   * the order detector, horn, flux; the first one that matches nothing is
   * reported. No attribute is ever returned whose keyword is absent.
   */
  function Resolve(s: string): (r: Result<Identification, ResolveError>)
    ensures r.Ok? ==> Contains(s, DetectorName(r.value.detector))
    ensures r.Ok? ==> Contains(s, HornName(r.value.horn))
    ensures r.Ok? ==> Contains(s, FluxName(r.value.flux))
    ensures r.Err? ==> r.error.input == s
  {
    match ResolveDetector(s)
    case None => Err(Unclassified(DetectorAttribute, s))
    case Some(det) =>
      match ResolveHorn(s)
      case None => Err(Unclassified(HornAttribute, s))
      case Some(horn) =>
        match ResolveFlux(s)
        case None => Err(Unclassified(FluxAttribute, s))
        case Some(flux) => Ok(Identification(det, horn, flux))
  }

  // Which keywords of each attribute occur in a string.

  predicate HasDetector(s: string) { Contains(s, "FD") || Contains(s, "ND") }
  predicate HasHorn(s: string) { Contains(s, "FHC") || Contains(s, "RHC") }
  predicate HasFlux(s: string) { Contains(s, "Fluxswap") || Contains(s, "Nonswap") || Contains(s, "Combined") }

  /** Resolution succeeds exactly when every attribute has at least one of its keywords. */
  lemma ResolveSucceedsIff(s: string)
    ensures Resolve(s).Ok? <==> HasDetector(s) && HasHorn(s) && HasFlux(s)
  {
  }

  /** Detector precedence: FD whenever "FD" occurs (even beside "ND"); ND only when "ND" occurs and "FD" does not. */
  lemma DetectorPrecedence(s: string)
    requires Resolve(s).Ok?
    ensures Resolve(s).value.detector == FD <==> Contains(s, "FD")
    ensures Resolve(s).value.detector == ND <==> !Contains(s, "FD") && Contains(s, "ND")
  {
  }

  /** Horn precedence: FHC whenever "FHC" occurs; RHC only when "RHC" occurs and "FHC" does not. */
  lemma HornPrecedence(s: string)
    requires Resolve(s).Ok?
    ensures Resolve(s).value.horn == FHC <==> Contains(s, "FHC")
    ensures Resolve(s).value.horn == RHC <==> !Contains(s, "FHC") && Contains(s, "RHC")
  {
  }

  /** Flux precedence: Fluxswap over Nonswap over Combined. */
  lemma FluxPrecedence(s: string)
    requires Resolve(s).Ok?
    ensures Resolve(s).value.flux == Fluxswap <==> Contains(s, "Fluxswap")
    ensures Resolve(s).value.flux == Nonswap <==> !Contains(s, "Fluxswap") && Contains(s, "Nonswap")
    ensures Resolve(s).value.flux == Combined
        <==> !Contains(s, "Fluxswap") && !Contains(s, "Nonswap") && Contains(s, "Combined")
  {
  }

  /** The failure names the first unclassifiable attribute, in the order detector, horn, flux. */
  lemma FailureOrder(s: string)
    ensures Resolve(s) == Err(Unclassified(DetectorAttribute, s)) <==> !HasDetector(s)
    ensures Resolve(s) == Err(Unclassified(HornAttribute, s)) <==> HasDetector(s) && !HasHorn(s)
    ensures Resolve(s) == Err(Unclassified(FluxAttribute, s))
        <==> HasDetector(s) && HasHorn(s) && !HasFlux(s)
  {
  }

  /**
   * Each component depends only on which of its own keywords occur: two
   * strings that agree on the detector keywords get the same detector, and
   * so on, whatever else they contain.
   */
  lemma ComponentsAreLocal(s: string, t: string)
    requires Resolve(s).Ok? && Resolve(t).Ok?
    ensures (Contains(s, "FD") <==> Contains(t, "FD")) && (Contains(s, "ND") <==> Contains(t, "ND"))
        ==> Resolve(s).value.detector == Resolve(t).value.detector
    ensures (Contains(s, "FHC") <==> Contains(t, "FHC")) && (Contains(s, "RHC") <==> Contains(t, "RHC"))
        ==> Resolve(s).value.horn == Resolve(t).value.horn
    ensures (Contains(s, "Fluxswap") <==> Contains(t, "Fluxswap"))
        && (Contains(s, "Nonswap") <==> Contains(t, "Nonswap"))
        && (Contains(s, "Combined") <==> Contains(t, "Combined"))
        ==> Resolve(s).value.flux == Resolve(t).value.flux
  {
  }

  /**
   * Extending a successfully resolved string never makes resolution fail, and
   * never moves an attribute to a keyword of lower precedence: FD, FHC and
   * Fluxswap are kept, and Nonswap never falls back to Combined.
   */
  lemma ExtendingKeepsSuccess(s: string, prefix: string, suffix: string)
    requires Resolve(s).Ok?
    ensures Resolve(prefix + s + suffix).Ok?
    ensures Resolve(s).value.detector == FD ==> Resolve(prefix + s + suffix).value.detector == FD
    ensures Resolve(s).value.horn == FHC ==> Resolve(prefix + s + suffix).value.horn == FHC
    ensures Resolve(s).value.flux == Fluxswap ==> Resolve(prefix + s + suffix).value.flux == Fluxswap
    ensures Resolve(s).value.flux == Nonswap ==> Resolve(prefix + s + suffix).value.flux != Combined
  {
    var w := prefix + s + suffix;
    forall pat | Contains(s, pat) ensures Contains(w, pat) {
      ContainsInConcat(prefix, s, pat);
      ContainsInConcat(prefix + s, suffix, pat);
    }
  }

  // The documented examples, including case sensitivity. Each example
  // string is a parameter fixed by the precondition; the occurrences are
  // located by index and the absences by a character the string lacks.

  lemma ExampleFarFluxswap(s: string)
    requires s == "FD-FHC-Fluxswap-something"
    ensures Resolve(s) == Ok(Identification(FD, FHC, Fluxswap))
  {
    assert s[3..6] == "FHC" by { assert s[3] == 'F'; assert s[4] == 'H'; assert s[5] == 'C'; }
    assert s[7..15] == "Fluxswap";
    OccurrenceIsFound(s, "FD", 0);
    OccurrenceIsFound(s, "FHC", 3);
    OccurrenceIsFound(s, "Fluxswap", 7);
  }

  lemma ExampleNearNonswap(s: string)
    requires s == "ND_RHC_Nonswap_run2"
    ensures Resolve(s) == Ok(Identification(ND, RHC, Nonswap))
  {
    assert s[3..6] == "RHC";
    assert s[7..14] == "Nonswap";
    assert 'F' !in s;
    OccurrenceIsFound(s, "ND", 0);
    OccurrenceIsFound(s, "RHC", 3);
    OccurrenceIsFound(s, "Nonswap", 7);
    AbsentCharNotContained(s, "FD", 'F');
    AbsentCharNotContained(s, "FHC", 'F');
    AbsentCharNotContained(s, "Fluxswap", 'F');
  }

  lemma ExampleFarAndForwardWin(s: string)
    requires s == "ND_FD_RHC_FHC_Fluxswap"
    ensures Resolve(s) == Ok(Identification(FD, FHC, Fluxswap))
  {
    assert s[3..5] == "FD" by { assert s[3] == 'F'; assert s[4] == 'D'; }
    assert s[10..13] == "FHC" by { assert s[10] == 'F'; assert s[11] == 'H'; assert s[12] == 'C'; }
    assert s[14..] == "Fluxswap";
    OccurrenceIsFound(s, "FD", 3);
    OccurrenceIsFound(s, "FHC", 10);
    OccurrenceIsFound(s, "Fluxswap", 14);
  }

  lemma ExampleNonswapBeforeCombined(s: string)
    requires s == "FD_FHC_Combined_Nonswap"
    ensures Resolve(s) == Ok(Identification(FD, FHC, Nonswap))
  {
    assert s[3..6] == "FHC" by { assert s[3] == 'F'; assert s[4] == 'H'; assert s[5] == 'C'; }
    assert s[16..] == "Nonswap";
    assert 'x' !in s;
    OccurrenceIsFound(s, "FD", 0);
    OccurrenceIsFound(s, "FHC", 3);
    OccurrenceIsFound(s, "Nonswap", 16);
    AbsentCharNotContained(s, "Fluxswap", 'x');
  }

  lemma ExampleNoDetector(s: string)
    requires s == "XX-FHC-Fluxswap"
    ensures Resolve(s) == Err(Unclassified(DetectorAttribute, s))
  {
    assert 'D' !in s && 'N' !in s;
    AbsentCharNotContained(s, "FD", 'D');
    AbsentCharNotContained(s, "ND", 'N');
  }

  lemma ExampleNoFlux(s: string)
    requires s == "FD-FHC-Unknown"
    ensures Resolve(s) == Err(Unclassified(FluxAttribute, s))
  {
    assert s[3..6] == "FHC";
    assert 's' !in s && 'b' !in s;
    OccurrenceIsFound(s, "FD", 0);
    OccurrenceIsFound(s, "FHC", 3);
    AbsentCharNotContained(s, "Fluxswap", 's');
    AbsentCharNotContained(s, "Nonswap", 's');
    AbsentCharNotContained(s, "Combined", 'b');
  }

  /** Lower case matches none of the seven keywords, so the detector already fails. */
  lemma ExampleLowerCaseFails(s: string)
    requires s == "fd-fhc-fluxswap"
    ensures Resolve(s) == Err(Unclassified(DetectorAttribute, s))
    ensures !HasHorn(s) && !HasFlux(s)
  {
    assert 'F' !in s && 'N' !in s && 'C' !in s;
    AbsentCharNotContained(s, "FD", 'F');
    AbsentCharNotContained(s, "ND", 'N');
    AbsentCharNotContained(s, "FHC", 'F');
    AbsentCharNotContained(s, "RHC", 'C');
    AbsentCharNotContained(s, "Fluxswap", 'F');
    AbsentCharNotContained(s, "Nonswap", 'N');
    AbsentCharNotContained(s, "Combined", 'C');
  }
}
