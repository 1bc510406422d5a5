/** One row of the chat list (src/components/ChatItem.tsx): the status colour
    of a presence status, and which of the avatar fallback, status dot, group
    icon and unread badge a row shows for its props. */
module ChatItem {
  import opened Wrappers
  import opened Text

  const OnlineClass := "bg-status-online"
  const IdleClass := "bg-status-idle"
  const StealthClass := "bg-status-stealth"
  const OfflineClass := "bg-status-offline"

  /** getStatusColor: a switch on the optional status string with strict
      equality; "offline", any other string and a missing status all fall to
      the default case. */
  function StatusColor(status: Option<string>): (c: string)
    ensures c == OnlineClass || c == IdleClass || c == StealthClass || c == OfflineClass
    ensures c == OnlineClass <==> status == Some("online")
    ensures c == IdleClass <==> status == Some("idle")
    ensures c == StealthClass <==> status == Some("stealth")
    ensures c == OfflineClass <==> !(status in {Some("online"), Some("idle"), Some("stealth")})
  {
    assert OnlineClass[10] != IdleClass[10] && OnlineClass[10] != StealthClass[10];
    assert OnlineClass[11] != OfflineClass[11] && IdleClass[10] != StealthClass[10];
    assert IdleClass[10] != OfflineClass[10] && StealthClass[10] != OfflineClass[10];
    match status
    case Some(s) =>
      if s == "online" then OnlineClass
      else if s == "idle" then IdleClass
      else if s == "stealth" then StealthClass
      else OfflineClass
    case None => OfflineClass
  }

  /** The props a row is rendered from; the click handler is left out. */
  datatype ChatItemProps = ChatItemProps(
    id: string,
    name: string,
    avatar: Option<string>,
    lastMessage: string,
    timestamp: string,
    unreadCount: int,
    isGroup: bool,
    status: Option<string>)

  /** What a row shows: the avatar image source when one is given, the
      avatar fallback text, the status dot with its colour class when present,
      whether the group icon is shown, the unread badge's number when present,
      and the three texts. */
  datatype RowView = RowView(
    image: Option<string>,
    fallback: string,
    statusDot: Option<string>,
    groupIcon: bool,
    badge: Option<int>,
    name: string,
    timestamp: string,
    lastMessage: string)

  /** The status dot is rendered for a chat that is not a group and has a
      (truthy) status. */
  predicate ShowsStatusDot(isGroup: bool, status: Option<string>) {
    !isGroup && Truthy(status)
  }

  /** The row rendered for `p`. */
  function Render(p: ChatItemProps): (v: RowView)
    ensures v.image == p.avatar
    ensures v.fallback == Initials(p.name) && |v.fallback| <= 2
    ensures v.statusDot.Some? <==> !p.isGroup && Truthy(p.status)
    ensures v.statusDot.Some? ==> v.statusDot.value == StatusColor(p.status)
    ensures v.groupIcon <==> p.isGroup
    ensures v.badge.Some? <==> p.unreadCount > 0
    ensures v.badge.Some? ==> v.badge.value == p.unreadCount
    ensures v.name == p.name && v.timestamp == p.timestamp && v.lastMessage == p.lastMessage
  {
    RowView(
      p.avatar,
      Initials(p.name),
      if ShowsStatusDot(p.isGroup, p.status) then Some(StatusColor(p.status)) else None,
      p.isGroup,
      if p.unreadCount > 0 then Some(p.unreadCount) else None,
      p.name,
      p.timestamp,
      p.lastMessage)
  }

  /** A row never shows both the status dot and the group icon, and a shown
      dot is coloured by the row's own status: it is the offline colour only
      when that status is none of online, idle and stealth. */
  lemma DotAndGroupIconExclusive(p: ChatItemProps)
    ensures !(Render(p).statusDot.Some? && Render(p).groupIcon)
    ensures Render(p).statusDot == Some(OfflineClass) ==>
      !p.isGroup && p.status.Some? && p.status.value !in {"online", "idle", "stealth"}
  {
  }
}
