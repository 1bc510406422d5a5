/** The main layout (src/components/ChatLayout.tsx): the active tab, the
    bottom navigation that selects it, and the panel rendered for each tab —
    for the chat tab, the stories sidebar and the chat list built from the
    component's mock data. The chat list rows repeat ChatItem's rules with
    their own copy of getStatusColor, but render no avatar image; the lemmas
    below show that the copy agrees with ChatItem and that the rows differ
    from ChatItem's only in that image. */
module ChatLayout {
  import opened Wrappers
  import opened Text
  import ChatItem

  /** `type Tab = "chat" | "discovery" | "you"`. */
  datatype Tab = ChatTab | DiscoveryTab | YouTab

  // ---------------------------------------------------------------------------
  // Data

  datatype Story = Story(id: string, username: string, avatar: string, hasViewed: bool)

  datatype Chat = Chat(
    id: string,
    name: string,
    avatar: string,
    lastMessage: string,
    timestamp: string,
    unreadCount: int,
    isGroup: bool,
    isOnline: Option<bool>,
    status: Option<string>)

  /** The mock stories. */
  const Stories: seq<Story> := [
    Story("1", "alex", "", false),
    Story("2", "maya", "", true),
    Story("3", "jordan", "", false)
  ]

  /** The mock chats. */
  const Chats: seq<Chat> := [
    Chat("1", "Alex Chen", "", "Hey! How's it going?", "2m ago", 2, false, Some(true), Some("online")),
    Chat("2", "Design Team", "", "Maya: The new mockups look great! 🎨", "1h ago", 0, true, None, None),
    Chat("3", "Jordan Smith", "", "Thanks for the help earlier", "3h ago", 0, false, None, Some("idle"))
  ]

  // ---------------------------------------------------------------------------
  // Presentation rules

  /** This component's own getStatusColor. */
  function StatusColor(status: Option<string>): (c: string)
    ensures c == ChatItem.OnlineClass || c == ChatItem.IdleClass
         || c == ChatItem.StealthClass || c == ChatItem.OfflineClass
  {
    match status
    case Some(s) =>
      if s == "online" then ChatItem.OnlineClass
      else if s == "idle" then ChatItem.IdleClass
      else if s == "stealth" then ChatItem.StealthClass
      else ChatItem.OfflineClass
    case None => ChatItem.OfflineClass
  }

  /** The copy maps every status, missing ones included, exactly as
      ChatItem does. */
  lemma StatusColorsAgree(status: Option<string>)
    ensures StatusColor(status) == ChatItem.StatusColor(status)
  {
  }

  const ViewedRing := "bg-story-viewed"
  const UnviewedRing := "story-ring"

  /** The ring around a story avatar: greyed once viewed, highlighted before. */
  function RingClass(hasViewed: bool): (c: string)
    ensures c == ViewedRing <==> hasViewed
    ensures c == UnviewedRing <==> !hasViewed
  {
    assert ViewedRing[0] != UnviewedRing[0];
    if hasViewed then ViewedRing else UnviewedRing
  }

  /** What one story shows: its ring class, its avatar fallback, its name. */
  datatype StoryView = StoryView(ringClass: string, fallback: string, username: string)

  function RenderStory(s: Story): (v: StoryView)
    ensures v.ringClass == RingClass(s.hasViewed)
    ensures v.fallback == Initials(s.username) && v.username == s.username
  {
    StoryView(RingClass(s.hasViewed), Initials(s.username), s.username)
  }

  /** A story's view depends on its viewed flag and its name only. */
  lemma StoryViewIgnoresIdAndAvatar(a: Story, b: Story)
    requires a.hasViewed == b.hasViewed && a.username == b.username
    ensures RenderStory(a) == RenderStory(b)
  {
  }

  /** One row of the chat list, as the layout renders it inline: the avatar
      holds only the fallback, never an image. */
  function ChatRow(c: Chat): (v: ChatItem.RowView)
    ensures v.image == None
    ensures v.statusDot.Some? <==> !c.isGroup && Truthy(c.status)
    ensures v.badge.Some? <==> c.unreadCount > 0
    ensures v.groupIcon <==> c.isGroup
  {
    ChatItem.RowView(
      None,
      Initials(c.name),
      if !c.isGroup && Truthy(c.status) then Some(StatusColor(c.status)) else None,
      c.isGroup,
      if c.unreadCount > 0 then Some(c.unreadCount) else None,
      c.name,
      c.timestamp,
      c.lastMessage)
  }

  /** The props ChatItem would receive for a chat. */
  function AsProps(c: Chat): ChatItem.ChatItemProps {
    ChatItem.ChatItemProps(c.id, c.name, Some(c.avatar), c.lastMessage, c.timestamp,
                           c.unreadCount, c.isGroup, c.status)
  }

  /** The inline row shows what ChatItem shows for the same chat, except
      that ChatItem also shows the chat's avatar image. */
  lemma ChatRowMatchesChatItem(c: Chat)
    ensures ChatRow(c) == ChatItem.Render(AsProps(c)).(image := None)
    ensures ChatItem.Render(AsProps(c)).image == Some(c.avatar)
  {
    StatusColorsAgree(c.status);
  }

  // ---------------------------------------------------------------------------
  // Tabs

  /** What renderTabContent returns for each tab. The chat panel carries the
      stories sidebar (absent when there are no stories) and the rows. */
  datatype Panel =
    | ChatPanel(title: string, sidebar: Option<seq<StoryView>>, rows: seq<ChatItem.RowView>)
    | DiscoveryPanel(heading: string, hubs: seq<string>)
    | YouPanel(heading: string, caption: string)

  const AppTitle := "konva"
  const DiscoveryHubs: seq<string> := ["🎌 Manga Hub", "📺 Anime Hub", "🤖 AI Interface"]

  /** renderTabContent: one panel per tab; the chat panel shows the sidebar
      only for a non-empty story list, and one row per chat in order. */
  function RenderTabContent(tab: Tab, stories: seq<Story>, chats: seq<Chat>): (p: Panel)
    ensures p.ChatPanel? <==> tab == ChatTab
    ensures p.DiscoveryPanel? <==> tab == DiscoveryTab
    ensures p.YouPanel? <==> tab == YouTab
    ensures p.ChatPanel? ==> (p.sidebar.Some? <==> |stories| > 0)
    ensures p.ChatPanel? && p.sidebar.Some? ==>
      |p.sidebar.value| == |stories| && forall i :: 0 <= i < |stories| ==> p.sidebar.value[i] == RenderStory(stories[i])
    ensures p.ChatPanel? ==>
      |p.rows| == |chats| && forall i :: 0 <= i < |chats| ==> p.rows[i] == ChatItem.Render(AsProps(chats[i])).(image := None)
  {
    match tab
    case ChatTab =>
      var rows := seq(|chats|, i requires 0 <= i < |chats| => ChatRow(chats[i]));
      assert forall i :: 0 <= i < |chats| ==> rows[i] == ChatItem.Render(AsProps(chats[i])).(image := None) by {
        forall i | 0 <= i < |chats| ensures rows[i] == ChatItem.Render(AsProps(chats[i])).(image := None) {
          ChatRowMatchesChatItem(chats[i]);
        }
      }
      ChatPanel(
        AppTitle,
        if |stories| > 0 then Some(seq(|stories|, i requires 0 <= i < |stories| => RenderStory(stories[i]))) else None,
        rows)
    case DiscoveryTab => DiscoveryPanel("Discovery", DiscoveryHubs)
    case YouTab => YouPanel("Profile & Settings", "Manage your account and preferences")
  }

  /** Different tabs render different panels. */
  lemma TabsRenderDistinctPanels(a: Tab, b: Tab, stories: seq<Story>, chats: seq<Chat>)
    requires a != b
    ensures RenderTabContent(a, stories, chats) != RenderTabContent(b, stories, chats)
  {
  }

  /** A bottom navigation button's variant. */
  datatype Variant = Default | Ghost

  /** The buttons of the bottom navigation, left to right. */
  const NavTabs: seq<Tab> := [ChatTab, DiscoveryTab, YouTab]

  function NavVariant(activeTab: Tab, button: Tab): (v: Variant)
    ensures v == Default <==> button == activeTab
  {
    if activeTab == button then Default else Ghost
  }

  /** How many of `buttons` show the default variant. */
  function DefaultCount(activeTab: Tab, buttons: seq<Tab>): nat {
    if buttons == [] then 0
    else (if NavVariant(activeTab, buttons[0]) == Default then 1 else 0) + DefaultCount(activeTab, buttons[1..])
  }

  /** Whatever the active tab, exactly one navigation button is highlighted,
      and it is the active tab's. */
  lemma ExactlyOneDefaultButton(activeTab: Tab)
    ensures DefaultCount(activeTab, NavTabs) == 1
    ensures forall i :: 0 <= i < |NavTabs| ==> (NavVariant(activeTab, NavTabs[i]) == Default <==> NavTabs[i] == activeTab)
  {
    assert NavTabs[1..] == [DiscoveryTab, YouTab];
    assert NavTabs[2..] == [YouTab];
    assert NavTabs[3..] == [];
  }

  // ---------------------------------------------------------------------------
  // State

  class Layout {
    var activeTab: Tab

    /** The layout opens on the chat tab. */
    constructor()
      ensures activeTab == ChatTab
    {
      activeTab := ChatTab;
    }

    /** A navigation button's click selects its tab. */
    method SelectTab(tab: Tab)
      modifies this
      ensures activeTab == tab
    {
      activeTab := tab;
    }

    /** The panel shown now, from the mock data. */
    function Content(): (p: Panel)
      reads this
      ensures p.ChatPanel? <==> activeTab == ChatTab
    {
      RenderTabContent(activeTab, Stories, Chats)
    }
  }

  /** With the mock data the chat tab shows the sidebar; Alex Chen's row has
      the online dot and a badge of 2, Design Team's the group icon and no
      dot, Jordan Smith's the idle dot and no badge. */
  lemma MockChatPanel()
    ensures RenderTabContent(ChatTab, Stories, Chats).sidebar.Some?
    ensures RenderTabContent(ChatTab, Stories, Chats).rows[0].statusDot == Some(ChatItem.OnlineClass)
    ensures RenderTabContent(ChatTab, Stories, Chats).rows[0].badge == Some(2)
    ensures RenderTabContent(ChatTab, Stories, Chats).rows[1].groupIcon
    ensures RenderTabContent(ChatTab, Stories, Chats).rows[1].statusDot == None
    ensures RenderTabContent(ChatTab, Stories, Chats).rows[2].statusDot == Some(ChatItem.IdleClass)
    ensures RenderTabContent(ChatTab, Stories, Chats).rows[2].badge == None
  {
    var p := RenderTabContent(ChatTab, Stories, Chats);
    assert p.rows[0] == ChatItem.Render(AsProps(Chats[0])).(image := None);
    assert p.rows[1] == ChatItem.Render(AsProps(Chats[1])).(image := None);
    assert p.rows[2] == ChatItem.Render(AsProps(Chats[2])).(image := None);
  }
}
