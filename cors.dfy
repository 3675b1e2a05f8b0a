/** The origins the API accepts cross-origin requests from: the comma-separated
    `BACKEND_CORS_ORIGINS` setting, each entry trimmed, blank entries dropped. */
module Cors {
  import opened Seqs
  import opened Text

  /** The setting's value when the environment does not give one. */
  const DefaultCorsOrigins := "http://localhost:3000"

  /** `[o.strip() for o in setting.split(",") if o.strip()]`. */
  function AllowOrigins(setting: string): seq<string>
  {
    Filter(NonEmpty, Map(Strip, SplitOn(setting, ',')))
  }

  /** Every origin is trimmed, not blank, and holds no comma. */
  lemma AllowOriginsClean(setting: string, k: nat)
    requires k < |AllowOrigins(setting)|
    ensures var o := AllowOrigins(setting)[k];
      && o != "" && Strip(o) == o && ',' !in o
      && !IsSpace(o[0]) && !IsSpace(o[|o| - 1])
  {
    var pieces := SplitOn(setting, ',');
    FilterMapSource(NonEmpty, Strip, pieces, k);
    var j :| 0 <= j < |pieces| && AllowOrigins(setting)[k] == Strip(pieces[j]) && NonEmpty(Strip(pieces[j]));
    StripIdempotent(pieces[j]);
    StripKeepsOut(pieces[j], ',');
  }

  /** The pieces make up the whole setting, and the origins keep the order
      of the pieces they come from and are picked at exactly the pieces that
      are not blank. */
  lemma AllowOriginsInOrder(setting: string)
    ensures Join(SplitOn(setting, ','), [',']) == setting
    ensures IsSubsequence(AllowOrigins(setting), Map(Strip, SplitOn(setting, ',')))
    ensures var trimmed := Map(Strip, SplitOn(setting, ','));
      var idx := FilterIndices(NonEmpty, trimmed);
      && Embeds(AllowOrigins(setting), trimmed, idx)
      && forall i :: 0 <= i < |trimmed| ==> (i in idx <==> trimmed[i] != "")
    ensures |AllowOrigins(setting)| <= |SplitOn(setting, ',')|
  {
    JoinOfSplitOn(setting, ',');
    var trimmed := Map(Strip, SplitOn(setting, ','));
    FilterIsSubsequence(NonEmpty, trimmed);
    FilterIndicesExact(NonEmpty, trimmed);
  }

  /** Every piece that is not blank once trimmed is allowed. */
  lemma AllowOriginsKeepEvery(setting: string, j: nat)
    requires j < |SplitOn(setting, ',')| && Strip(SplitOn(setting, ',')[j]) != ""
    ensures Strip(SplitOn(setting, ',')[j]) in AllowOrigins(setting)
  {
    FilterKeeps(NonEmpty, Map(Strip, SplitOn(setting, ',')), j);
  }

  /** Writing clean origins comma-separated gives those origins back: the
      setting's format and its parsing are inverse to each other. */
  lemma AllowOriginsOfJoin(origins: seq<string>)
    requires origins != []
    requires forall k :: 0 <= k < |origins| ==> origins[k] != "" && Strip(origins[k]) == origins[k] && ',' !in origins[k]
    ensures AllowOrigins(Join(origins, [','])) == origins
  {
    SplitOnOfJoin(origins, ',');
    MapFixed(Strip, origins);
    FilterAllKept(NonEmpty, origins);
  }

  lemma DefaultHasNoComma()
    ensures ',' !in DefaultCorsOrigins
  {
  }

  lemma DefaultIsStripped()
    ensures Strip(DefaultCorsOrigins) == DefaultCorsOrigins
  {
    StripOfUnpadded(DefaultCorsOrigins);
  }

  /** The default setting allows exactly the local frontend. */
  lemma DefaultOrigins()
    ensures AllowOrigins(DefaultCorsOrigins) == [DefaultCorsOrigins]
  {
    DefaultHasNoComma();
    DefaultIsStripped();
    AllowOriginsOfJoin([DefaultCorsOrigins]);
  }
}
