/** The bot's configuration record and its completeness check. */
module Config {

  /** The fields of the configuration file. */
  datatype BotInfo = BotInfo(
    token: string,
    site: string,
    clientID: string,
    clientSecret: string,
    username: string,
    password: string,
    filterUsers: seq<string>)

  /** The six credentials the bot cannot run without, in declaration order. */
  function RequiredFields(b: BotInfo): seq<string>
  {
    [b.token, b.site, b.clientID, b.clientSecret, b.username, b.password]
  }

  /**
   * The startup check: the configuration is accepted only when the bot token,
   * the service site, the OAuth client id and secret, the username and the
   * password are all non-empty. The list of permitted senders may be empty.
   */
  predicate Complete(b: BotInfo): (ok: bool)
    ensures ok <==> "" !in RequiredFields(b)
    ensures ok <==> forall k :: 0 <= k < |RequiredFields(b)| ==> |RequiredFields(b)[k]| > 0
  {
    !(b.token == "" || b.site == "" || b.clientID == "" || b.clientSecret == "" || b.username == "" || b.password == "")
  }

  /** Emptying any one required field, whatever the others hold, makes the check reject. */
  lemma EmptyFieldRejected(b: BotInfo, k: nat)
    requires k < 6
    ensures !Complete(
      match k
      case 0 => b.(token := "")
      case 1 => b.(site := "")
      case 2 => b.(clientID := "")
      case 3 => b.(clientSecret := "")
      case 4 => b.(username := "")
      case _ => b.(password := ""))
  {
  }

  /** The list of permitted senders plays no part in the check. */
  lemma FilterUsersIrrelevant(b: BotInfo, users: seq<string>)
    ensures Complete(b.(filterUsers := users)) == Complete(b)
  {
  }
}
