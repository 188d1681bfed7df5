/** The table of Cookidoo sites both command-line pipelines choose from, and
    the client configuration built from it. */
module Regions {
  import opened Dicts
  import opened Text

  datatype Localization = Localization(countryCode: string, language: string, url: string)

  /** What the platform client is given: the credentials and a site. */
  datatype CookidooConfig = CookidooConfig(email: string, password: string, localization: Localization)

  /** `get_cookidoo_config` either configures the client or raises a
      `ValueError` with this message. */
  datatype ConfigOutcome = Configured(config: CookidooConfig) | UnknownRegion(message: string)

  /** `REGION_CONFIG`, in its order. */
  const RegionConfig: ODict<Localization> := [
    ("es", Localization("es", "es-ES", "https://cookidoo.es/foundation/es-ES")),
    ("de", Localization("de", "de-DE", "https://cookidoo.de/foundation/de-DE")),
    ("fr", Localization("fr", "fr-FR", "https://cookidoo.fr/foundation/fr-FR")),
    ("it", Localization("it", "it-IT", "https://cookidoo.it/foundation/it-IT")),
    ("uk", Localization("uk", "en-GB", "https://cookidoo.co.uk/foundation/en-GB")),
    ("us", Localization("us", "en-US", "https://cookidoo.com/foundation/en-US"))]

  /** The region codes, joined the way the error message lists them. */
  function Available(): string {
    Join(", ", Keys(RegionConfig))
  }

  /** `get_cookidoo_config(email, password, region)`. */
  function GetCookidooConfig(email: string, password: string, region: string): (r: ConfigOutcome)
    ensures r.Configured? <==> region in Keys(RegionConfig)
    ensures r.Configured? ==>
      && (region, r.config.localization) in RegionConfig
      && r.config.email == email && r.config.password == password
    ensures r.UnknownRegion? ==> r.message == "Unknown region '" + region + "'. Available: " + Available()
  {
    match Get(RegionConfig, region)
    case Some(site) => Configured(CookidooConfig(email, password, site))
    case None => UnknownRegion("Unknown region '" + region + "'. Available: " + Available())
  }

  lemma RegionCodesDistinct()
    ensures forall i, j | 0 <= i < j < |RegionConfig| :: RegionConfig[i].0 != RegionConfig[j].0
  {
    assert forall i | 0 <= i < |RegionConfig| :: |RegionConfig[i].0| == 2;
    var firsts := "edfiuu";
    var seconds := "sertks";
    assert forall i | 0 <= i < |RegionConfig| :: RegionConfig[i].0[0] == firsts[i] && RegionConfig[i].0[1] == seconds[i];
  }

  /** Every listed region gets exactly its own row of the table. */
  lemma RegionLookup(email: string, password: string, i: nat)
    requires i < |RegionConfig|
    ensures GetCookidooConfig(email, password, RegionConfig[i].0) == Configured(CookidooConfig(email, password, RegionConfig[i].1))
  {
    RegionCodesDistinct();
    GetAt(RegionConfig, i);
  }

  /** The message names the six regions in table order. */
  lemma AvailableText()
    ensures Available() == "es, de, fr, it, uk, us"
  {
    RegionCodes();
    JoinedCodes();
  }

  const Codes: seq<string> := ["es", "de", "fr", "it", "uk", "us"]

  lemma RegionCodes()
    ensures Keys(RegionConfig) == Codes
  {
  }

  lemma JoinedCodes()
    ensures Join(", ", Codes) == "es, de, fr, it, uk, us"
  {
    JoinSnoc(", ", Codes[..1], "de");
    assert Codes[..2] == Codes[..1] + ["de"];
    JoinSnoc(", ", Codes[..2], "fr");
    assert Codes[..3] == Codes[..2] + ["fr"];
    JoinSnoc(", ", Codes[..3], "it");
    assert Codes[..4] == Codes[..3] + ["it"];
    JoinSnoc(", ", Codes[..4], "uk");
    assert Codes[..5] == Codes[..4] + ["uk"];
    JoinSnoc(", ", Codes[..5], "us");
    assert Codes == Codes[..5] + ["us"];
  }

  /** Each site's country code is its region code. */
  lemma CountryCodes(i: nat)
    requires i < |RegionConfig|
    ensures RegionConfig[i].1.countryCode == RegionConfig[i].0
  {
  }
}
