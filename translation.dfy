/** The public entry points of the translation engine (osm_im/im_translation.py, lines 34-101
    and 555-557): descriptor-type detection, input validation, envelope removal and dispatch to
    the VNFD or NSD translation. */
module Translation {
  import opened Wrappers
  import opened Errors
  import Strings
  import Im
  import Sol006
  import VnfdRules
  import VnfdBuilder
  import NsdRules
  import NsdBuilder

  datatype DescriptorKind = VnfdKind | NsdKind

  const KindErrorPrefix := "Error in translation: cannot determine the type of OSM-IM descriptor. Found "
  const KindErrorSuffix := ", expected one of: vnfd:vnfd-catalog, vnfd-catalog, nsd:nsd-catalog, nsd-catalog."

  /** The exception raised when the root key names neither descriptor type. */
  function KindError(found: string): TranslationError
  {
    TranslationException(KindErrorPrefix + found + KindErrorSuffix)
  }

  /** The descriptor type named by the document's root key: "vnfd" is looked for first, then "nsd". */
  function DescriptorKindOf(rootKey: string): (r: Result<DescriptorKind, TranslationError>)
    ensures r == Ok(VnfdKind) <==> exists i :: Strings.OccursAt(rootKey, "vnfd", i)
    ensures r == Ok(NsdKind) <==> (!exists i :: Strings.OccursAt(rootKey, "vnfd", i)) && exists i :: Strings.OccursAt(rootKey, "nsd", i)
    ensures r.Err? ==> r == Err(KindError(rootKey))
  {
    Strings.ContainsIffOccurs(rootKey, "vnfd");
    Strings.ContainsIffOccurs(rootKey, "nsd");
    if Strings.Contains(rootKey, "vnfd") then Ok(VnfdKind)
    else if Strings.Contains(rootKey, "nsd") then Ok(NsdKind)
    else Err(KindError(rootKey))
  }

  /** What the schema validator reports about a document. */
  datatype Verdict = Conforms | NonConformant(message: string)

  /** The schema validator, which this model takes as given. */
  type Validator = (DescriptorKind, Im.Document) -> Verdict

  const ValidationErrorPrefix := "Error on input model validation: "

  /** Validation: the descriptor type must be known, then the validator must accept the document. */
  function ValidateImModel(doc: Im.Document, validate: Validator): (r: Result<DescriptorKind, TranslationError>)
    ensures DescriptorKindOf(doc.rootKey).Err? ==> r == DescriptorKindOf(doc.rootKey)
    ensures DescriptorKindOf(doc.rootKey).Ok? ==>
              match validate(DescriptorKindOf(doc.rootKey).value, doc)
              case Conforms => r == DescriptorKindOf(doc.rootKey)
              case NonConformant(m) => r == Err(TranslationException(ValidationErrorPrefix + m))
  {
    match DescriptorKindOf(doc.rootKey)
    case Err(e) => Err(e)
    case Ok(kind) =>
      match validate(kind, doc)
      case Conforms => Ok(kind)
      case NonConformant(m) => Err(TranslationException(ValidationErrorPrefix + m))
  }

  /** `{root: {"vnfd": [d, ...]}}` -> d. */
  function RemoveImVnfdEnvelope(doc: Im.Document): (r: Result<Im.Vnfd, TranslationError>)
    ensures doc.catalog.vnfd.None? ==> r == Err(KeyError("vnfd"))
    ensures doc.catalog.vnfd.Some? && |doc.catalog.vnfd.value| == 0 ==> r == Err(IndexError)
    ensures doc.catalog.vnfd.Some? && |doc.catalog.vnfd.value| > 0 ==> r == Ok(doc.catalog.vnfd.value[0])
  {
    match doc.catalog.vnfd
    case None => Err(KeyError("vnfd"))
    case Some(ds) => if |ds| == 0 then Err(IndexError) else Ok(ds[0])
  }

  /** `{root: {"nsd": [d, ...]}}` -> d. */
  function RemoveImNsdEnvelope(doc: Im.Document): (r: Result<Im.Nsd, TranslationError>)
    ensures doc.catalog.nsd.None? ==> r == Err(KeyError("nsd"))
    ensures doc.catalog.nsd.Some? && |doc.catalog.nsd.value| == 0 ==> r == Err(IndexError)
    ensures doc.catalog.nsd.Some? && |doc.catalog.nsd.value| > 0 ==> r == Ok(doc.catalog.nsd.value[0])
  {
    match doc.catalog.nsd
    case None => Err(KeyError("nsd"))
    case Some(ds) => if |ds| == 0 then Err(IndexError) else Ok(ds[0])
  }

  function TranslateImVnfd(doc: Im.Document): Result<Sol006.Document, TranslationError>
  {
    match RemoveImVnfdEnvelope(doc)
    case Err(e) => Err(e)
    case Ok(v) =>
      match VnfdRules.TranslateVnfd(v)
      case Err(e) => Err(e)
      case Ok(out) => Ok(Sol006.VnfdDocument(out))
  }

  function TranslateImNsd(doc: Im.Document, render: NsdRules.RenderRefs): Result<Sol006.Document, TranslationError>
  {
    match RemoveImNsdEnvelope(doc)
    case Err(e) => Err(e)
    case Ok(n) => Ok(Sol006.NsdDocument([NsdRules.TranslateNsd(n, render)]))
  }

  /** Validate, then translate according to the descriptor type. */
  function TranslateImModel(doc: Im.Document, validate: Validator, render: NsdRules.RenderRefs): Result<Sol006.Document, TranslationError>
  {
    match ValidateImModel(doc, validate)
    case Err(e) => Err(e)
    case Ok(VnfdKind) => TranslateImVnfd(doc)
    case Ok(NsdKind) => TranslateImNsd(doc, render)
  }

  /** `translate_im_vnfd_to_sol006`: envelope removal and the VNFD stages, without validation. */
  method TranslateImVnfdToSol006(doc: Im.Document) returns (r: Result<Sol006.Document, TranslationError>)
    ensures r == TranslateImVnfd(doc)
  {
    var v := RemoveImVnfdEnvelope(doc);
    if v.Err? {
      return Err(v.error);
    }
    var out := VnfdBuilder.BuildSol006Vnfd(v.value);
    if out.Err? {
      return Err(out.error);
    }
    r := Ok(Sol006.VnfdDocument(out.value));
  }

  /** `translate_im_nsd_to_sol006`: envelope removal and the NSD stages, without validation. */
  method TranslateImNsdToSol006(doc: Im.Document, render: NsdRules.RenderRefs) returns (r: Result<Sol006.Document, TranslationError>)
    ensures r == TranslateImNsd(doc, render)
  {
    var n := RemoveImNsdEnvelope(doc);
    if n.Err? {
      return Err(n.error);
    }
    var out := NsdBuilder.BuildSol006Nsd(n.value, render);
    r := Ok(Sol006.NsdDocument([out]));
  }

  /** `translate_im_model_to_sol006`: validation, then dispatch on the descriptor type. */
  method TranslateImModelToSol006(doc: Im.Document, validate: Validator, render: NsdRules.RenderRefs)
    returns (r: Result<Sol006.Document, TranslationError>)
    ensures r == TranslateImModel(doc, validate, render)
  {
    var kind := ValidateImModel(doc, validate);
    if kind.Err? {
      return Err(kind.error);
    }
    if kind.value == VnfdKind {
      r := TranslateImVnfdToSol006(doc);
    } else {
      r := TranslateImNsdToSol006(doc, render);
    }
  }

  /** The four root keys the error message lists name the descriptor types they spell. */
  lemma KnownRootKeys()
    ensures DescriptorKindOf("vnfd:vnfd-catalog") == Ok(VnfdKind)
    ensures DescriptorKindOf("vnfd-catalog") == Ok(VnfdKind)
    ensures DescriptorKindOf("nsd:nsd-catalog") == Ok(NsdKind)
    ensures DescriptorKindOf("nsd-catalog") == Ok(NsdKind)
  {
    assert Strings.OccursAt("vnfd:vnfd-catalog", "vnfd", 0);
    assert Strings.OccursAt("vnfd-catalog", "vnfd", 0);
    assert Strings.OccursAt("nsd:nsd-catalog", "nsd", 0);
    assert Strings.OccursAt("nsd-catalog", "nsd", 0);
    NoVnfdIn("nsd:nsd-catalog");
    NoVnfdIn("nsd-catalog");
  }

  /** A key without a letter 'v' cannot contain "vnfd". */
  lemma NoVnfdIn(s: string)
    requires forall k :: 0 <= k < |s| ==> s[k] != 'v'
    ensures !exists i :: Strings.OccursAt(s, "vnfd", i)
  {
    forall i
      ensures !Strings.OccursAt(s, "vnfd", i)
    {
      if 0 <= i && i + 4 <= |s| {
        assert s[i..i + 4][0] == s[i];
      }
    }
  }

  /** An unknown descriptor type is reported before the validator runs. */
  lemma UnknownKindFirst(doc: Im.Document, validate: Validator, render: NsdRules.RenderRefs)
    ensures DescriptorKindOf(doc.rootKey).Err? ==> TranslateImModel(doc, validate, render) == Err(KindError(doc.rootKey))
  {
    var kind := DescriptorKindOf(doc.rootKey);
    if kind.Err? {
      assert ValidateImModel(doc, validate) == kind;
    }
  }

  /** A document the validator rejects is not translated. */
  lemma RejectedNotTranslated(doc: Im.Document, validate: Validator, render: NsdRules.RenderRefs)
    ensures DescriptorKindOf(doc.rootKey).Ok? && validate(DescriptorKindOf(doc.rootKey).value, doc).NonConformant? ==>
              TranslateImModel(doc, validate, render) ==
                Err(TranslationException(ValidationErrorPrefix + validate(DescriptorKindOf(doc.rootKey).value, doc).message))
  {
  }

  /** A valid document is translated by its descriptor type. */
  lemma DispatchByKind(doc: Im.Document, validate: Validator, render: NsdRules.RenderRefs)
    ensures DescriptorKindOf(doc.rootKey) == Ok(VnfdKind) && validate(VnfdKind, doc) == Conforms ==>
              TranslateImModel(doc, validate, render) == TranslateImVnfd(doc)
    ensures DescriptorKindOf(doc.rootKey) == Ok(NsdKind) && validate(NsdKind, doc) == Conforms ==>
              TranslateImModel(doc, validate, render) == TranslateImNsd(doc, render)
  {
  }

  /** The NSD translation fails only on a malformed envelope; the VNFD one also on its stages. */
  lemma EnvelopeErrors(doc: Im.Document, render: NsdRules.RenderRefs)
    ensures TranslateImNsd(doc, render).Err? <==> RemoveImNsdEnvelope(doc).Err?
    ensures RemoveImVnfdEnvelope(doc).Err? ==> TranslateImVnfd(doc) == Err(RemoveImVnfdEnvelope(doc).error)
    ensures RemoveImVnfdEnvelope(doc).Ok? ==>
              TranslateImVnfd(doc) == match VnfdRules.TranslateVnfd(RemoveImVnfdEnvelope(doc).value)
                                      case Ok(out) => Ok(Sol006.VnfdDocument(out))
                                      case Err(e) => Err(e)
  {
  }
}
