/** Texts that Twitch sends and the bot says, and the parts they are made of. */
module TwitchTexts {

  const SERVER := "tmi.twitch.tv"
  const REJECTED := "Login authentication failed"
  const REJECTED_LINE := ":tmi.twitch.tv NOTICE * :Login authentication failed"
  const ACK_LINE := ":tmi.twitch.tv CAP * ACK :twitch.tv/membership twitch.tv/tags twitch.tv/commands"
  const WELCOMED := "Welcome, GLHF!"
  const WELCOME_LINE := ":tmi.twitch.tv 001 bot :Welcome, GLHF!"

  predicate OneLine(s: string) {
    forall i | 0 <= i < |s| :: s[i] != '\r' && s[i] != '\n'
  }

  lemma RejectedHead()
    ensures ":tmi.twitch.tv NOTICE * :" == ":" + SERVER + " " + "NOTICE" + (" " + "*") + " :"
  {
  }

  lemma RejectedText()
    ensures ":tmi.twitch.tv NOTICE * :Login authentication failed"
            == ":tmi.twitch.tv NOTICE * :" + "Login authentication failed"
  {
  }

  lemma RejectedIsOneLine()
    ensures OneLine(REJECTED)
  {
  }

  lemma AckHead()
    ensures ":tmi.twitch.tv CAP * ACK :" == ":" + SERVER + " " + "CAP" + (" " + "*" + " " + "ACK") + " :"
  {
  }

  lemma AckText()
    ensures ":tmi.twitch.tv CAP * ACK :twitch.tv/membership twitch.tv/tags twitch.tv/commands"
            == ":tmi.twitch.tv CAP * ACK :twitch.tv/membership" + " twitch.tv/tags twitch.tv/commands"
  {
  }

  lemma AckMiddle()
    ensures ":tmi.twitch.tv CAP * ACK :twitch.tv/membership" == ":tmi.twitch.tv CAP * ACK :" + "twitch.tv/membership"
  {
  }

  lemma WelcomeHead()
    ensures ":tmi.twitch.tv 001 bot :" == ":" + SERVER + " " + "001" + (" " + "bot") + " :"
  {
  }

  lemma WelcomeText()
    ensures WELCOME_LINE == ":tmi.twitch.tv 001 bot :" + WELCOMED
    ensures OneLine(WELCOMED)
  {
  }

  lemma SmallWords()
    ensures OneLine(SERVER) && ' ' !in SERVER
    ensures OneLine("*") && OneLine("ACK") && OneLine("bot") && OneLine(" ")
  {
  }

  lemma CapabilitiesAreOneLine()
    ensures OneLine("twitch.tv/membership") && OneLine("twitch.tv/tags") && OneLine("twitch.tv/commands")
  {
  }

  lemma CapReqHead()
    ensures "CAP REQ :twitch.tv/membership" == "CAP REQ :" + "twitch.tv/membership"
  {
  }

  lemma CapReqRest()
    ensures " twitch.tv/tags twitch.tv/commands" == " " + "twitch.tv/tags" + " " + "twitch.tv/commands"
  {
  }

  lemma CapReqJoined()
    ensures "CAP REQ :twitch.tv/membership twitch.tv/tags twitch.tv/commands"
            == "CAP REQ :twitch.tv/membership" + " twitch.tv/tags twitch.tv/commands"
  {
  }

  lemma Regroup(a: string, b: string, c: string, d: string)
    ensures a + b + (" " + c + " " + d) == a + b + " " + c + " " + d
    ensures a + b + (" " + c + " " + d) == a + (b + " " + c + " " + d)
  {
  }
}
