// Channels (irc/src/Channel.cpp). The server keeps them by value in a map.

module IrcChannel {
  import opened Limits

  datatype Channel = Channel(
    name: string, topic: string,
    inviteOnly: bool, topicRestricted: bool,
    hasKey: bool, key: string, hasLimit: bool, limit: nat,
    members: set<int>, operators: set<int>, invited: set<int>)
  {
    function SetKey(k: string): Channel {
      this.(hasKey := true, key := k)
    }

    function RemoveKey(): Channel {
      this.(hasKey := false, key := "")
    }

    function SetLimit(n: nat): Channel {
      this.(hasLimit := true, limit := n)
    }

    function RemoveLimit(): Channel {
      this.(hasLimit := false, limit := 0)
    }

    function AddMember(fd: int, op: bool): Channel {
      this.(members := members + {fd}, operators := if op then operators + {fd} else operators)
    }

    function RemoveMember(fd: int): Channel {
      this.(members := members - {fd}, operators := operators - {fd}, invited := invited - {fd})
    }

    function Grant(fd: int): Channel {
      if fd in members then this.(operators := operators + {fd}) else this
    }

    function Revoke(fd: int): Channel {
      this.(operators := operators - {fd})
    }

    function Invite(fd: int): Channel {
      this.(invited := invited + {fd})
    }

    function RemoveInvite(fd: int): Channel {
      this.(invited := invited - {fd})
    }
  }

  function Fresh(name: string): Channel {
    Channel(name, "", false, false, false, "", false, 0, {}, {}, {})
  }

  /** Operators are members, nobody invited is one, and the mode fields agree. */
  predicate Fits(ch: Channel) {
    && ch.operators <= ch.members && ch.members !! ch.invited
    && (if ch.hasLimit then 0 < ch.limit <= INT_MAX else ch.limit == 0)
    && (!ch.hasKey ==> ch.key == "")
  }
}
