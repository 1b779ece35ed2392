/** Linking a Telegram chat to a wallet user: start from the site, confirm from the chat. */
module TelegramLink {
  import opened Wrappers

  const LINK_TTL: int := 15 * 60

  datatype LinkStatus = PENDING | ACTIVE

  datatype Link = Link(chat: int, status: LinkStatus, token: string, expiresAt: Option<int>, linkedAt: Option<int>)

  /** What happened to the links, in order: a start that went through, a confirmation, a row deleted. */
  datatype Event =
    | Started(user: int, chat: int, token: string, at: int)
    | Confirmed(user: int, chat: int, token: string, at: int)
    | Removed(user: int)

  /** The latest start of a user, not undone since. */
  ghost predicate NewestStart(log: seq<Event>, k: int, u: int) {
    && 0 <= k < |log| && log[k].Started? && log[k].user == u
    && forall j :: k < j < |log| && log[j].user == u ==> log[j].Confirmed?
  }

  /** A pending link is the user's newest start, unconfirmed. An active one is the newest start, and its own
      chat confirmed its token within the time limit. */
  ghost predicate Justified(log: seq<Event>, u: int, l: Link) {
    exists k :: NewestStart(log, k, u) && log[k].chat == l.chat && JustifiedBy(log, k, u, l)
  }

  ghost predicate JustifiedBy(log: seq<Event>, k: int, u: int, l: Link)
    requires 0 <= k < |log| && log[k].Started?
  {
    match l.status
    case PENDING =>
      && l.token == log[k].token && l.expiresAt == Some(log[k].at + 900)
      && forall j :: k < j < |log| ==> log[j].user != u
    case ACTIVE =>
      exists m :: k < m < |log| && log[m].Confirmed? && log[m] == Confirmed(u, l.chat, log[k].token, log[m].at)
                  && l.linkedAt == Some(log[m].at) && log[m].at <= log[k].at + 900
  }

  ghost predicate ChatsUnique(links: map<int, Link>) {
    forall u, v :: u in links && v in links && links[u].chat == links[v].chat ==> u == v
  }

  lemma OnlyLinkOfChat(links: map<int, Link>, v: int, u: Option<int>)
    requires ChatsUnique(links) && v in links
    requires u.Some? ==> u.value in links && links[u.value].chat == links[v].chat
    requires u.None? ==> forall w :: w in links ==> links[w].chat != links[v].chat
    ensures u == Some(v)
  {
    assert u.Some? && u.value == v;
  }

  lemma StartKeepsChatsUnique(links: map<int, Link>, u: int, l: Link)
    requires ChatsUnique(links) && forall v :: v in links && v != u ==> links[v].chat != l.chat
    ensures ChatsUnique(links[u := l])
  {
  }

  lemma RemoveKeepsChatsUnique(links: map<int, Link>, u: int)
    requires ChatsUnique(links)
    ensures ChatsUnique(links - {u})
  {
  }

  /** No other row has the chat of this one. */
  lemma ChatIsFree(links: map<int, Link>, u: int)
    requires ChatsUnique(links) && u in links
    ensures forall v :: v in links && v != u ==> links[v].chat != links[u].chat
  {
  }

  /** Exactly the users with a start not undone have a link, and each link is justified. */
  ghost predicate Explained(links: map<int, Link>, log: seq<Event>) {
    && (forall u :: u in links ==> Justified(log, u, links[u]))
    && forall u, k :: NewestStart(log, k, u) ==> u in links
  }

  lemma NewestGrows(log: seq<Event>, e: Event, k: int, u: int)
    ensures e.user != u ==> (NewestStart(log + [e], k, u) <==> NewestStart(log, k, u))
    ensures e.user == u && e.Confirmed? ==> (NewestStart(log + [e], k, u) <==> NewestStart(log, k, u))
    ensures e.user == u && e.Started? ==> (NewestStart(log + [e], k, u) <==> k == |log|)
    ensures e.user == u && e.Removed? ==> !NewestStart(log + [e], k, u)
  {
    var next := log + [e];
    assert next[|log|] == e;
    assert forall j :: 0 <= j < |log| ==> next[j] == log[j];
  }

  /** An event about another user leaves a link justified. */
  lemma OthersDoNotMatter(log: seq<Event>, e: Event, u: int, l: Link)
    requires Justified(log, u, l) && e.user != u
    ensures Justified(log + [e], u, l)
  {
    var k :| NewestStart(log, k, u) && log[k].chat == l.chat && JustifiedBy(log, k, u, l);
    NewestGrows(log, e, k, u);
    var next := log + [e];
    assert next[k] == log[k];
    if l.status == ACTIVE {
      var m :| k < m < |log| && log[m].Confirmed? && log[m] == Confirmed(u, l.chat, log[k].token, log[m].at)
               && l.linkedAt == Some(log[m].at) && log[m].at <= log[k].at + 900;
      assert next[m] == log[m];
    }
    assert JustifiedBy(next, k, u, l);
  }

  lemma RemoveExplained(links: map<int, Link>, log: seq<Event>, u: int)
    requires Explained(links, log) && u in links
    ensures Explained(links - {u}, log + [Removed(u)])
  {
    forall v | v in links && v != u ensures Justified(log + [Removed(u)], v, links[v]) {
      OthersDoNotMatter(log, Removed(u), v, links[v]);
    }
    forall v, k | NewestStart(log + [Removed(u)], k, v) ensures v in links - {u} {
      NewestGrows(log, Removed(u), k, v);
    }
  }

  lemma StartExplained(links: map<int, Link>, log: seq<Event>, u: int, chat: int, token: string, now: int)
    requires Explained(links, log)
    ensures Explained(links[u := Link(chat, PENDING, token, Some(now + LINK_TTL), None)],
                      log + [Started(u, chat, token, now)])
  {
    var e, l := Started(u, chat, token, now), Link(chat, PENDING, token, Some(now + LINK_TTL), None);
    forall v | v in links && v != u ensures Justified(log + [e], v, links[v]) {
      OthersDoNotMatter(log, e, v, links[v]);
    }
    NewestGrows(log, e, |log|, u);
    assert JustifiedBy(log + [e], |log|, u, l);
    forall v, k | NewestStart(log + [e], k, v) ensures v in links[u := l] {
      NewestGrows(log, e, k, v);
    }
  }

  lemma ConfirmExplained(links: map<int, Link>, log: seq<Event>, u: int, now: int)
    requires Explained(links, log) && u in links && links[u].status == PENDING
    requires !(links[u].expiresAt.Some? && links[u].expiresAt.value < now)
    ensures var l := links[u];
            Explained(links[u := Link(l.chat, ACTIVE, "", None, Some(now))], log + [Confirmed(u, l.chat, l.token, now)])
  {
    var pending := links[u];
    var e, l := Confirmed(u, pending.chat, pending.token, now), Link(pending.chat, ACTIVE, "", None, Some(now));
    forall v | v in links && v != u ensures Justified(log + [e], v, links[v]) {
      OthersDoNotMatter(log, e, v, links[v]);
    }
    var k :| NewestStart(log, k, u) && log[k].chat == pending.chat && JustifiedBy(log, k, u, pending);
    NewestGrows(log, e, k, u);
    assert (log + [e])[|log|] == e && (log + [e])[k] == log[k];
    assert JustifiedBy(log + [e], k, u, l);
    forall v, j | NewestStart(log + [e], j, v) ensures v in links[u := l] {
      NewestGrows(log, e, j, v);
    }
  }

  class LinkService {
    var links: map<int, Link>
    ghost var log: seq<Event>

    ghost predicate Valid()
      reads this
    {
      ChatsUnique(links) && Explained(links, log)
    }

    constructor ()
      ensures Valid() && links == map[] && log == []
    {
      links, log := map[], [];
    }

    method LinkOfChat(chat: int, except: Option<int>) returns (u: Option<int>)
      ensures u.Some? ==> u.value in links && links[u.value].chat == chat && Some(u.value) != except
      ensures u.None? ==> forall v :: v in links && links[v].chat == chat ==> Some(v) == except
    {
      if v :| v in links && links[v].chat == chat && Some(v) != except { u := Some(v); } else { u := None; }
    }

    /** start_link. Anything that raises, including a message that cannot be delivered, undoes every write. */
    method StartLink(user: int, chat: int, token: string, now: int, delivered: bool) returns (r: Result<Link>)
      requires Valid()
      modifies this
      ensures Valid()
      ensures r.Ok? <==>
                && chat != 0 && delivered && (user in old(links) ==> old(links)[user].status == PENDING)
                && forall v :: v in old(links) && v != user && old(links)[v].chat == chat ==>
                     old(links)[v].status == PENDING
      ensures r.Error? ==> links == old(links) && log == old(log)
      ensures r.Ok? ==> r.value == Link(chat, PENDING, token, Some(now + 900), None)
      ensures r.Ok? ==> user in links && links[user] == r.value
      ensures r.Ok? ==> forall v :: v != user ==>
                && (v in links <==> v in old(links) && old(links)[v].chat != chat)
                && (v in links ==> links[v] == old(links)[v])
      ensures forall v :: v in old(links) && old(links)[v].status == ACTIVE ==> v in links && links[v] == old(links)[v]
    {
      hide Explained, ChatsUnique;
      if chat == 0 { return Error("Invalid chat ID."); }
      var before := links;
      ghost var logBefore := log;
      var other := LinkOfChat(chat, Some(user));
      if other.Some? && links[other.value].status == ACTIVE {
        assert links[other.value].chat == chat && other.value != user;
        return Error("already linked to another wallet");
      }
      if other.Some? {
        ChatIsFree(links, other.value);
        RemoveExplained(links, log, other.value);
        RemoveKeepsChatsUnique(links, other.value);
        links, log := links - {other.value}, log + [Removed(other.value)];
      }
      if user in links && links[user].status == ACTIVE {
        links, log := before, logBefore;
        return Error("Unlink Telegram first.");
      }
      var link := Link(chat, PENDING, token, Some(now + LINK_TTL), None);
      StartExplained(links, log, user, chat, token, now);
      StartKeepsChatsUnique(links, user, link);
      links, log := links[user := link], log + [Started(user, chat, token, now)];
      if !delivered {
        links, log := before, logBefore;
        return Error("Could not message that chat.");
      }
      r := Ok(link);
    }

    /** confirm_link. An expired request stays pending. */
    method ConfirmLink(chat: int, token: string, now: int) returns (r: Result<int>)
      requires Valid()
      modifies this
      ensures Valid()
      ensures r.Ok? <==> exists u :: u in old(links) && old(links)[u].chat == chat && old(links)[u].token == token
                                     && old(links)[u].status == PENDING
                                     && (old(links)[u].expiresAt.Some? ==> now <= old(links)[u].expiresAt.value)
      ensures r.Error? ==> links == old(links) && log == old(log)
      ensures r.Ok? ==> r.value in old(links) && old(links)[r.value].chat == chat && old(links)[r.value].token == token
                        && links == old(links)[r.value := Link(chat, ACTIVE, "", None, Some(now))]
    {
      var u := LinkOfChat(chat, None);
      if u.None? || links[u.value].token != token || links[u.value].status != PENDING {
        forall v | v in links && links[v].chat == chat ensures u == Some(v) { OnlyLinkOfChat(links, v, u); }
        return Error("This link request expired.");
      }
      var link := links[u.value];
      var clash := exists v :: v in links && links[v].chat == chat && links[v].status == ACTIVE && v != u.value;
      if (link.expiresAt.Some? && link.expiresAt.value < now) || clash {
        forall v | v in links && links[v].chat == chat ensures u == Some(v) { OnlyLinkOfChat(links, v, u); }
        return Error("expired, or already linked to another wallet");
      }
      ConfirmExplained(links, log, u.value, now);
      links, log := links[u.value := Link(chat, ACTIVE, "", None, Some(now))],
        log + [Confirmed(u.value, chat, token, now)];
      r := Ok(u.value);
    }

    /** cancel_pending_link */
    method CancelPendingLink(chat: int, token: string)
      requires Valid()
      modifies this
      ensures Valid()
      ensures forall v :: v in links <==>
                v in old(links)
                && !(old(links)[v].chat == chat && old(links)[v].token == token && old(links)[v].status == PENDING)
      ensures forall v :: v in links ==> links[v] == old(links)[v]
    {
      var u := LinkOfChat(chat, None);
      if u.Some? && links[u.value].token == token && links[u.value].status == PENDING {
        RemoveExplained(links, log, u.value);
        links, log := links - {u.value}, log + [Removed(u.value)];
      }
    }

    /** unlink */
    method Unlink(user: int)
      requires Valid()
      modifies this
      ensures Valid() && links == old(links) - {user}
    {
      if user in links {
        RemoveExplained(links, log, user);
        links, log := links - {user}, log + [Removed(user)];
      }
    }
  }

  datatype Request =
    | Start(user: int, chat: int, token: string, delivered: bool)
    | Confirm(chat: int, token: string)
    | Cancel(chat: int, token: string)
    | Unlink(user: int)

  /** After any sequence of requests: chats and users are unique, and every active link was confirmed by its
      own chat, with the token of that user's newest start, within fifteen minutes of it. */
  method Serve(requests: seq<(Request, int)>) returns (s: LinkService)
    ensures ChatsUnique(s.links)
    ensures forall u :: u in s.links && s.links[u].status == ACTIVE ==>
              exists k, m :: 0 <= k < m < |s.log| && NewestStart(s.log, k, u) && s.log[k].chat == s.links[u].chat
                             && s.log[m].Confirmed?
                             && s.log[m] == Confirmed(u, s.links[u].chat, s.log[k].token, s.log[m].at)
                             && s.log[m].at <= s.log[k].at + 900
  {
    s := new LinkService();
    for i := 0 to |requests|
      invariant s.Valid() && fresh(s)
    {
      var now := requests[i].1;
      match requests[i].0
      case Start(user, chat, token, delivered) => var _ := s.StartLink(user, chat, token, now, delivered);
      case Confirm(chat, token) => var _ := s.ConfirmLink(chat, token, now);
      case Cancel(chat, token) => s.CancelPendingLink(chat, token);
      case Unlink(user) => s.Unlink(user);
    }
    forall u | u in s.links && s.links[u].status == ACTIVE
      ensures exists k, m :: 0 <= k < m < |s.log| && NewestStart(s.log, k, u) && s.log[k].chat == s.links[u].chat
                             && s.log[m].Confirmed?
                             && s.log[m] == Confirmed(u, s.links[u].chat, s.log[k].token, s.log[m].at)
                             && s.log[m].at <= s.log[k].at + 900
    {
      assert Justified(s.log, u, s.links[u]);
    }
  }
}
