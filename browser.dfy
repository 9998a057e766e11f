/** What the client stores see of the browser: the two localStorage entries they use and
    the replies of the API calls they make. */
module Browser {
  import opened Common

  /** The keys of an error reply's body the stores read; all None when no reply came. */
  datatype ErrorData = ErrorData(detail: Option<string>, blocked: Option<bool>, blockedUntil: Option<string>)

  const NoReply := ErrorData(None, None, None)

  /** An awaited axios call: the parsed body, or the rejection. */
  datatype Reply<T> = Answer(data: T) | Failed(error: ErrorData)

  /** localStorage, restricted to the entries "token" and "likedProjects". */
  class LocalStorage {
    var token: Option<string>
    var likedProjects: Option<seq<nat>>

    constructor (token: Option<string>, likedProjects: Option<seq<nat>>)
      ensures this.token == token && this.likedProjects == likedProjects
    {
      this.token, this.likedProjects := token, likedProjects;
    }

    method SetToken(t: string)
      modifies this`token
      ensures token == Some(t)
    {
      token := Some(t);
    }

    method RemoveToken()
      modifies this`token
      ensures token.None?
    {
      token := None;
    }

    method SetLikedProjects(ids: seq<nat>)
      modifies this`likedProjects
      ensures likedProjects == Some(ids)
    {
      likedProjects := Some(ids);
    }
  }
}
