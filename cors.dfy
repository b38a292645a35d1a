/**
 * The origin check the API's CORS middleware runs on every request
 * (server.js): requests without an `Origin` header, with the literal
 * origin `'null'` (file pages, some tools) or from one of five known
 * front-end origins are let through; every other origin is refused.
 */
module Cors {
  import opened JsString

  /** The fixed allow-list of front-end origins. */
  const AllowedOrigins: set<string> := {
    "http://localhost:3000",
    "http://localhost:8080",
    "https://fynx-landingpage.vercel.app",
    "https://www.getfynxx.in",
    "https://getfynxx.in"
  }

  const BlockedMessage := "Not allowed by CORS"

  /** What the `origin` callback reports: `callback(null, true)` or `callback(new Error(…))`. */
  datatype Verdict = Allow | Reject(message: string)

  /**
   * The `origin` option of the CORS middleware. `!origin` holds for a
   * missing header and for the empty string alike.
   */
  function CheckOrigin(origin: Option<string>): (v: Verdict)
    ensures v.Reject? ==> v.message == BlockedMessage
    ensures v.Allow? <==>
      || origin.None?
      || origin.value in {"", "null"} + AllowedOrigins
  {
    var safeNoOrigin := !Truthy(origin) || origin.value == "null";
    if safeNoOrigin || origin.value in AllowedOrigins then Allow
    else Reject(BlockedMessage)
  }

  /** The allow-list holds five distinct origins. */
  lemma FiveAllowedOrigins()
    ensures |AllowedOrigins| == 5
  {
    var a, b, c, d, e :=
      "http://localhost:3000", "http://localhost:8080", "https://fynx-landingpage.vercel.app",
      "https://www.getfynxx.in", "https://getfynxx.in";
    assert a[17] == '3' && b[17] == '8';
    assert |c| != |d| && |c| != |e| && |d| != |e|;
    assert |a| == |b| && |a| != |c| && |a| != |d| && |a| != |e|;
    assert {a, b, c, d, e} == AllowedOrigins;
  }

  /**
   * Apart from requests with no origin or the `'null'` origin, only
   * local development servers and HTTPS sites are let through.
   */
  lemma AllowedAreLocalOrSecure(origin: string)
    requires CheckOrigin(Some(origin)).Allow? && origin != "" && origin != "null"
    ensures "http://localhost:" <= origin || "https://" <= origin
  {
    assert origin in AllowedOrigins;
  }
}
