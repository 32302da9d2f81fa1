/** The cross-origin signing protocol: what both ends exchange. */
module CrossOrigin {
  import opened Options
  import opened Tags

  const MAX_GRANT_TTL_SECONDS := 900

  datatype Template = Template(kind: int, createdAt: int, content: string, tags: seq<seq<string>>)

  datatype Event = Event(id: string, pubkey: string, sig: string, template: Template)

  datatype ErrorCode =
    | NotAvailable | PopupBlocked | Declined | Refused | GrantExpired | Revoked | ChannelClosed | Timeout | SignerError

  datatype GrantInfo = GrantInfo(grantId: string, pubkey: string, kinds: set<int>, audiences: set<string>, expiresAt: int)

  datatype Message =
    | Ready
    | Connect(id: string, kinds: seq<int>, audiences: seq<string>, expectedPubkey: Option<string>)
    | Connected(id: string, grant: GrantInfo)
    | Sign(id: string, grantId: string, template: Template)
    | Signed(id: string, event: Event)
    | Error(errorId: Option<string>, code: ErrorCode)
    | RevokedGrant(grantId: string)
    | Disconnect(grantId: string)

  /** The origin a template is addressed to: that of its single `u` tag, if that is an http(s) URL
      without user info. `originOf` is the URL parser. */
  function AudienceOf(originOf: string -> Option<string>, template: Template): Option<string> {
    var us := TagsNamed(template.tags, "u");
    if |us| != 1 || |us[0]| < 2 then None else originOf(us[0][1])
  }

  /** A NAP completion proof carries a `challenge` tag. */
  predicate IsCompletion(template: Template) {
    TagsNamed(template.tags, "challenge") != []
  }
}
