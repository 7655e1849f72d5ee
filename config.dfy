/** The dashboard's connection settings (the `Config` record of src/main.rs)
    and the protocol that keeps secrets out of the browser: reads replace
    every non-empty secret with a sentinel, and writes put the stored secret
    back wherever the sentinel comes back unchanged. */
module AppConfig {

  /** One URL per backend, plus the credentials each adapter needs. */
  datatype Config = Config(
    sonarrUrl: string, sonarrKey: string,
    radarrUrl: string, radarrKey: string,
    jackettUrl: string, jackettKey: string,
    transmissionUrl: string, transmissionUser: string, transmissionPass: string,
    plexUrl: string, plexToken: string,
    jellyfinUrl: string, jellyfinKey: string,
    embyUrl: string, embyKey: string)

  /** What a masked secret reads as. */
  const Sentinel: string := "********"

  /** The seven secret fields. */
  datatype Secret = SonarrKey | RadarrKey | JackettKey | TransmissionPass | PlexToken | JellyfinKey | EmbyKey

  function SecretOf(c: Config, f: Secret): string {
    match f
    case SonarrKey => c.sonarrKey
    case RadarrKey => c.radarrKey
    case JackettKey => c.jackettKey
    case TransmissionPass => c.transmissionPass
    case PlexToken => c.plexToken
    case JellyfinKey => c.jellyfinKey
    case EmbyKey => c.embyKey
  }

  /** The eight fields that are not secrets (the URLs and the torrent
      client's user name) agree. */
  predicate SamePublic(a: Config, b: Config) {
    a.sonarrUrl == b.sonarrUrl && a.radarrUrl == b.radarrUrl && a.jackettUrl == b.jackettUrl
    && a.transmissionUrl == b.transmissionUrl && a.transmissionUser == b.transmissionUser
    && a.plexUrl == b.plexUrl && a.jellyfinUrl == b.jellyfinUrl && a.embyUrl == b.embyUrl
  }

  /** Two configurations that agree on every secret and every public field
      are the same configuration. */
  lemma Extensionality(a: Config, b: Config)
    requires SamePublic(a, b) && forall f :: SecretOf(a, f) == SecretOf(b, f)
    ensures a == b
  {
    assert SecretOf(a, SonarrKey) == SecretOf(b, SonarrKey);
    assert SecretOf(a, RadarrKey) == SecretOf(b, RadarrKey);
    assert SecretOf(a, JackettKey) == SecretOf(b, JackettKey);
    assert SecretOf(a, TransmissionPass) == SecretOf(b, TransmissionPass);
    assert SecretOf(a, PlexToken) == SecretOf(b, PlexToken);
    assert SecretOf(a, JellyfinKey) == SecretOf(b, JellyfinKey);
    assert SecretOf(a, EmbyKey) == SecretOf(b, EmbyKey);
  }

  // ---------------------------------------------------------------------
  // Reading: get_dashboard_config

  function MaskValue(v: string): string {
    if v != "" then Sentinel else v
  }

  /** The configuration as `get_dashboard_config` returns it: every secret
      that is set reads as the sentinel, an unset secret stays empty, and
      the URLs and user name are shown as they are. */
  function Mask(c: Config): (m: Config)
    ensures SamePublic(m, c)
    ensures forall f :: SecretOf(c, f) == "" ==> SecretOf(m, f) == ""
    ensures forall f :: SecretOf(c, f) != "" ==> SecretOf(m, f) == Sentinel
  {
    c.(sonarrKey := MaskValue(c.sonarrKey), radarrKey := MaskValue(c.radarrKey),
       jackettKey := MaskValue(c.jackettKey), transmissionPass := MaskValue(c.transmissionPass),
       plexToken := MaskValue(c.plexToken), jellyfinKey := MaskValue(c.jellyfinKey),
       embyKey := MaskValue(c.embyKey))
  }

  /** No stored secret other than the sentinel itself is ever shown. */
  lemma MaskHidesSecrets(c: Config, f: Secret)
    ensures SecretOf(Mask(c), f) in {"", Sentinel}
    ensures SecretOf(Mask(c), f) == "" <==> SecretOf(c, f) == ""
  {
  }

  /** Masking a masked configuration changes nothing. */
  lemma {:induction false} MaskIdempotent(c: Config)
    ensures Mask(Mask(c)) == Mask(c)
  {
    var m := Mask(c);
    forall f ensures SecretOf(Mask(m), f) == SecretOf(m, f) {
      MaskHidesSecrets(m, f);
    }
    Extensionality(Mask(m), m);
  }

  // ---------------------------------------------------------------------
  // Writing: update_dashboard_config

  function MergeValue(incoming: string, stored: string): string {
    if incoming == Sentinel then stored else incoming
  }

  /** The configuration `update_dashboard_config` installs: a secret that
      comes back as the sentinel keeps its stored value, any other incoming
      secret (the empty one included) is taken as sent, and every public
      field is taken from the payload. */
  function Merge(stored: Config, payload: Config): (r: Config)
    ensures SamePublic(r, payload)
    ensures forall f :: SecretOf(payload, f) == Sentinel ==> SecretOf(r, f) == SecretOf(stored, f)
    ensures forall f :: SecretOf(payload, f) != Sentinel ==> SecretOf(r, f) == SecretOf(payload, f)
  {
    payload.(sonarrKey := MergeValue(payload.sonarrKey, stored.sonarrKey),
             radarrKey := MergeValue(payload.radarrKey, stored.radarrKey),
             jackettKey := MergeValue(payload.jackettKey, stored.jackettKey),
             transmissionPass := MergeValue(payload.transmissionPass, stored.transmissionPass),
             plexToken := MergeValue(payload.plexToken, stored.plexToken),
             jellyfinKey := MergeValue(payload.jellyfinKey, stored.jellyfinKey),
             embyKey := MergeValue(payload.embyKey, stored.embyKey))
  }

  /** Sending back what was read restores exactly what was stored. */
  lemma {:induction false} MergeMaskRoundTrip(stored: Config)
    ensures Merge(stored, Mask(stored)) == stored
  {
    var r := Merge(stored, Mask(stored));
    forall f ensures SecretOf(r, f) == SecretOf(stored, f) {
      MaskHidesSecrets(stored, f);
    }
    Extensionality(r, stored);
  }

  /** A secret cleared in the form is cleared in the store. */
  lemma ClearToEmpty(stored: Config, payload: Config, f: Secret)
    requires SecretOf(payload, f) == ""
    ensures SecretOf(Merge(stored, payload), f) == ""
  {
  }

  /** No configuration holds the sentinel as a secret. */
  predicate NoSentinel(c: Config) {
    forall f :: SecretOf(c, f) != Sentinel
  }

  /** The sentinel never leaks into the store: a merged secret is the
      sentinel only when the stored one already was, so a store free of it
      stays free of it whatever the payload. */
  lemma SentinelNeverLeaks(stored: Config, payload: Config)
    ensures forall f :: SecretOf(Merge(stored, payload), f) == Sentinel ==> SecretOf(stored, f) == Sentinel
    ensures NoSentinel(stored) ==> NoSentinel(Merge(stored, payload))
  {
  }

  /** Applying the same payload twice stores what applying it once did,
      whatever the store held. */
  lemma {:induction false} MergeStable(stored: Config, payload: Config)
    ensures Merge(Merge(stored, payload), payload) == Merge(stored, payload)
  {
    var once := Merge(stored, payload);
    var twice := Merge(once, payload);
    forall f ensures SecretOf(twice, f) == SecretOf(once, f) {
    }
    Extensionality(twice, once);
  }

  /** What the settings store and the audit log record. */
  datatype AuditEvent = AuditEvent(service: string, action: string, details: string)

  /** The shared configuration and what has been written through it: the
      rows saved to the settings table and the audit events. */
  class ConfigStore {
    var config: Config
    var saved: seq<Config>
    var events: seq<AuditEvent>

    constructor (initial: Config)
      ensures config == initial && saved == [] && events == []
    {
      config := initial;
      saved := [];
      events := [];
    }

    /** `get_dashboard_config`: a masked copy; the store is untouched. */
    method GetDashboardConfig() returns (shown: Config)
      ensures shown == Mask(config)
      ensures SamePublic(shown, config)
      ensures forall f :: SecretOf(shown, f) == "" <==> SecretOf(config, f) == ""
      ensures forall f :: SecretOf(config, f) != "" ==> SecretOf(shown, f) == Sentinel
    {
      shown := config;
      if shown.sonarrKey != "" { shown := shown.(sonarrKey := Sentinel); }
      if shown.radarrKey != "" { shown := shown.(radarrKey := Sentinel); }
      if shown.jackettKey != "" { shown := shown.(jackettKey := Sentinel); }
      if shown.transmissionPass != "" { shown := shown.(transmissionPass := Sentinel); }
      if shown.plexToken != "" { shown := shown.(plexToken := Sentinel); }
      if shown.jellyfinKey != "" { shown := shown.(jellyfinKey := Sentinel); }
      if shown.embyKey != "" { shown := shown.(embyKey := Sentinel); }
    }

    /** `update_dashboard_config`: restore the masked secrets from the
        current configuration, replace the configuration wholesale by the
        result, save that same result and record the event; the reply is
        always 200. */
    method UpdateDashboardConfig(payload: Config) returns (status: nat)
      modifies this
      ensures config == Merge(old(config), payload)
      ensures saved == old(saved) + [config]
      ensures events == old(events) + [AuditEvent("System", "Config Updated", "Connection settings updated via Dashboard")]
      ensures NoSentinel(old(config)) ==> NoSentinel(config)
      ensures status == 200
    {
      var p := payload;
      if p.sonarrKey == Sentinel { p := p.(sonarrKey := config.sonarrKey); }
      if p.radarrKey == Sentinel { p := p.(radarrKey := config.radarrKey); }
      if p.jackettKey == Sentinel { p := p.(jackettKey := config.jackettKey); }
      if p.transmissionPass == Sentinel { p := p.(transmissionPass := config.transmissionPass); }
      if p.plexToken == Sentinel { p := p.(plexToken := config.plexToken); }
      if p.jellyfinKey == Sentinel { p := p.(jellyfinKey := config.jellyfinKey); }
      if p.embyKey == Sentinel { p := p.(embyKey := config.embyKey); }
      assert p == Merge(config, payload);
      SentinelNeverLeaks(config, payload);
      config := p;
      saved := saved + [p];
      events := events + [AuditEvent("System", "Config Updated", "Connection settings updated via Dashboard")];
      status := 200;
    }
  }
}
