/** Selection of a pitch (F0) back-end by name, shared by conversion
    (`VC.get_f0`) and training preprocessing (`DataPreprocessor.compute_f0`).
    The back-ends themselves are external estimators; what is modelled is
    which one is called, with which arguments. */
module PitchMethods {
  import opened Util

  datatype F0Method = Crepe | CrepeTiny | Fcpe | Rmvpe | RmvpePlus

  /** The method's name as the caller spells it. */
  function NameOf(m: F0Method): string
  {
    match m
    case Crepe => "crepe"
    case CrepeTiny => "crepe-tiny"
    case Fcpe => "fcpe"
    case Rmvpe => "rmvpe"
    case RmvpePlus => "rmvpe+"
  }

  /** The names the dispatch chain recognises. */
  const KnownNames: set<string> := {"crepe", "crepe-tiny", "fcpe", "rmvpe", "rmvpe+"}

  /** The `if/elif` chain on the method name: None when no branch matches. */
  function ParseF0Method(name: string): (m: Option<F0Method>)
    ensures m.Some? <==> name in KnownNames
    ensures m.Some? ==> NameOf(m.value) == name
  {
    if name == "crepe" then Some(Crepe)
    else if name == "crepe-tiny" then Some(CrepeTiny)
    else if name == "fcpe" then Some(Fcpe)
    else if name == "rmvpe" || name == "rmvpe+" then Some(if name == "rmvpe" then Rmvpe else RmvpePlus)
    else None
  }

  /** Every method is recognised under its own name. */
  lemma ParseNameOf(m: F0Method)
    ensures ParseF0Method(NameOf(m)) == Some(m)
  {
  }

  /** A call of one external back-end with the arguments the dispatch passes:
      CREPE gets the Hz bounds, the frame count and its model size ("full" or
      "tiny"), FCPE only the frame count, RMVPE the method name itself. */
  datatype BackendCall =
    | CrepeCall(audio: seq<real>, fMin: real, fMax: real, pLen: Option<nat>, model: string)
    | FcpeCall(audio: seq<real>, pLen: Option<nat>)
    | RmvpeCall(audio: seq<real>, methodName: string)

  /** The back-end call each method makes. */
  function CallFor(m: F0Method, audio: seq<real>, fMin: real, fMax: real, pLen: Option<nat>): (c: BackendCall)
    ensures c.audio == audio
    ensures m in {Crepe, CrepeTiny} <==> c.CrepeCall?
    ensures c.CrepeCall? ==> c.fMin == fMin && c.fMax == fMax && c.pLen == pLen
                             && c.model == (if m == Crepe then "full" else "tiny")
    ensures c.FcpeCall? <==> m == Fcpe
    ensures c.FcpeCall? ==> c.pLen == pLen
    ensures c.RmvpeCall? ==> c.methodName == NameOf(m)
  {
    match m
    case Crepe => CrepeCall(audio, fMin, fMax, pLen, "full")
    case CrepeTiny => CrepeCall(audio, fMin, fMax, pLen, "tiny")
    case Fcpe => FcpeCall(audio, pLen)
    case Rmvpe => RmvpeCall(audio, "rmvpe")
    case RmvpePlus => RmvpeCall(audio, "rmvpe+")
  }
}
