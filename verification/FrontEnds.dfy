/**
 The text side of the chat front ends: mention stripping in
 internal/feishu/bot.go and internal/telegram/bot.go, and their allowlists.
 */
module FrontEnds {
  import opened GoStrings
  import opened Decimal
  import opened Commands

  // ---------- Feishu ----------

  /** The string part of extractText. */
  function ExtractText(text: string): string {
    var at := IndexOf(text, ' ');
    if at != -1 && HasPrefix(text, "@") then TrimSpace(text[at + 1..]) else text
  }

  function FeishuCall(text: string): Call {
    CallOf(TrimSpace(ExtractText(text)))
  }

  // ---------- Telegram ----------

  function NormalizedMessage(text: string): string {
    var words := Fields(text);
    if words == [] then "" else Join([CutMention(words[0])] + words[1..], " ")
  }

  function TelegramCall(text: string): Call {
    CallOf(NormalizedMessage(text))
  }

  // ---------- what normalisation preserves ----------

  /** The first field starts with '@'. */
  predicate OpensWithMention(text: string) {
    var words := Fields(text);
    words != [] && HasPrefix(words[0], "@")
  }

  lemma CutIsClean(word: string)
    ensures CutMention(CutMention(word)) == CutMention(word)
    ensures NoSpace(word) ==> NoSpace(CutMention(word))
    ensures CutMention(word) == "" <==> word == "" || word[0] == '@'
  {
    var cut := CutMention(word);
    assert '@' !in cut;
  }

  lemma CutTwice(word: string)
    ensures NormalizeCommand(CutMention(word)) == NormalizeCommand(word)
  {
    CutIsClean(word);
  }

  lemma FieldsOfNormalized(text: string)
    ensures var words := Fields(text);
            Fields(NormalizedMessage(text)) == if words == [] then []
                                               else if OpensWithMention(text) then words[1..]
                                               else [CutMention(words[0])] + words[1..]
  {
    var words := Fields(text);
    FieldsAreWords(text);
    if words != [] {
      var cut, rest := CutMention(words[0]), words[1..];
      CutIsClean(words[0]);
      assert OpensWithMention(text) <==> words[0][0] == '@';
      if cut != "" {
        FieldsOfJoin([cut] + rest);
      } else {
        FieldsOfJoin(rest);
        assert ([""] + rest)[1..] == rest;
        if rest != [] {
          FieldsAcrossSpace("", ' ', Join(rest, " "));
          assert NormalizedMessage(text) == "" + " " + Join(rest, " ");
        }
      }
    }
  }

  /** The first field is cut at its '@', and gone when nothing is left of it; the others stay. */
  ghost predicate FieldsWithoutMention(words: seq<string>, rest: seq<string>) {
    if words == [] then rest == []
    else if HasPrefix(words[0], "@") then rest == words[1..]
    else rest != [] && IsBeforeAt(rest[0], words[0]) && rest[1..] == words[1..]
  }

  lemma NormalizedFields(text: string)
    ensures FieldsWithoutMention(Fields(text), Fields(NormalizedMessage(text)))
  {
    FieldsOfNormalized(text);
    if Fields(text) != [] {
      CutMentionMeaning(Fields(text)[0], CutMention(Fields(text)[0]));
    }
  }

  method NormalizeMessageCommand(text: string) returns (cmd: string)
    ensures cmd == NormalizedMessage(text)
    ensures FieldsWithoutMention(Fields(text), Fields(cmd))
  {
    NormalizedFields(text);
    var words := Fields(TrimSpace(text));
    FieldsTrimSpace(text);
    if |words| == 0 {
      return "";
    }
    var fields := new string[|words|](i requires 0 <= i < |words| => words[i]);
    assert fields[..] == words;
    var word := fields[0];
    var at := IndexOf(word, '@');
    if at != -1 {
      word := word[..at];
    }
    fields[0] := word;
    assert fields[..] == [CutMention(words[0])] + words[1..];
    return Join(fields[..], " ");
  }

  /** Normalising keeps the call of a message, and drops exactly a leading mention. */
  lemma TelegramKeepsMeaning(text: string)
    ensures TelegramCall(text) == if OpensWithMention(text) then CallOfWords(Fields(text)[1..]) else CallOf(text)
    ensures OpensWithMention(text) ==> TelegramCall(text) == CallOf(Join(Fields(text)[1..], " "))
  {
    var words := Fields(text);
    FieldsOfNormalized(text);
    FieldsAreWords(text);
    if words != [] {
      CutTwice(words[0]);
      FieldsOfJoin(words[1..]);
    }
  }

  // ---------- when the two front ends agree ----------

  lemma FirstFieldStart(text: string)
    requires text != "" && !IsSpace(text[0])
    ensures Fields(text) != [] && Fields(text)[0] != "" && Fields(text)[0][0] == text[0]
  {
    FieldsAreWords(text);
  }

  /** The mention opens the text, and nothing but white space stands between it and the first plain space. */
  predicate SpaceAfterMention(text: string) {
    var at := IndexOf(text, ' ');
    HasPrefix(text, "@") && at != -1 && |Fields(text[..at])| == 1
  }

  lemma FeishuWords(text: string)
    ensures FeishuCall(text) == CallOfWords(Fields(ExtractText(text)))
  {
    FieldsTrimSpace(ExtractText(text));
  }

  /** Where a leading mention is followed by a plain space, Feishu reads on after that space. */
  lemma FeishuReadsOn(text: string)
    requires HasPrefix(text, "@") && IndexOf(text, ' ') != -1
    ensures var n := |Fields(text[..IndexOf(text, ' ')])|;
            1 <= n <= |Fields(text)| && FeishuCall(text) == CallOfWords(Fields(text)[n..])
  {
    var at := IndexOf(text, ' ');
    var before, after := text[..at], text[at + 1..];
    assert text[0] == '@' && at > 0;
    FirstFieldStart(before);
    assert text == before + [' '] + after;
    FieldsAcrossSpace(before, ' ', after);
    FieldsTrimSpace(after);
    FeishuWords(text);
  }

  lemma LongerTailDiffers(words: seq<string>, n: nat)
    requires n <= |words| && n != 1 && words != []
    ensures CallOfWords(words[n..]) != CallOfWords(words[1..])
  {
    var a, b := CallOfWords(words[n..]), CallOfWords(words[1..]);
    if a.Call? && b.Call? {
      assert |a.args| == |words| - n - 1 && |b.args| == |words| - 2;
    }
  }

  /** One message asks the same of the handler through both front ends exactly under this condition on its text. */
  lemma FrontEndsAgree(text: string)
    ensures FeishuCall(text) == TelegramCall(text) <==> !OpensWithMention(text) || SpaceAfterMention(text)
  {
    var words := Fields(text);
    TelegramKeepsMeaning(text);
    FeishuWords(text);
    if HasPrefix(text, "@") {
      assert text[0] == '@';
      FirstFieldStart(text);
      assert OpensWithMention(text);
    }
    if HasPrefix(text, "@") && IndexOf(text, ' ') != -1 {
      var n := |Fields(text[..IndexOf(text, ' ')])|;
      FeishuReadsOn(text);
      if n != 1 {
        LongerTailDiffers(words, n);
      }
    } else if OpensWithMention(text) {
      assert words[0..] == words;
      LongerTailDiffers(words, 0);
    }
  }

  /** A bare mention: help from Telegram, an unknown command from Feishu. */
  lemma BareMentionDiffers()
    ensures TelegramCall("@bot") == Blank && FeishuCall("@bot") == Call("", [])
  {
    var text := "@bot";
    assert text[0] == '@' && text[1] == 'b' && text[2] == 'o' && text[3] == 't';
    FieldsOfWord(text);
    assert Fields(text)[1..] == [];
    TelegramKeepsMeaning(text);
    FeishuWords(text);
    CutIsClean(text);
  }

  // ---------- allowlists ----------

  /** Empty lists admit everyone; otherwise either id must be listed. */
  predicate Admits(users: seq<string>, chats: seq<string>, user: string, chat: string) {
    (users == [] && chats == []) || user in users || chat in chats
  }

  method IsAllowed(users: seq<string>, chats: seq<string>, user: string, chat: string) returns (ok: bool)
    ensures ok == Admits(users, chats, user, chat)
  {
    if |users| == 0 && |chats| == 0 {
      return true;
    }
    for i := 0 to |users|
      invariant user !in users[..i]
    {
      if users[i] == user {
        return true;
      }
    }
    for i := 0 to |chats|
      invariant chat !in chats[..i]
    {
      if chats[i] == chat {
        return true;
      }
    }
    return false;
  }

  function Printed(ids: seq<int>): (r: seq<string>)
    ensures |r| == |ids|
  {
    seq(|ids|, i requires 0 <= i < |ids| => FormatInt(ids[i]))
  }

  /** Comparing printed ids admits exactly the listed ids. */
  lemma PrintedAllowlistIsExact(users: seq<int>, chats: seq<int>, user: int, chat: int)
    ensures Admits(Printed(users), Printed(chats), FormatInt(user), FormatInt(chat))
       <==> (users == [] && chats == []) || user in users || chat in chats
  {
    PrintedMember(users, user);
    PrintedMember(chats, chat);
  }

  lemma PrintedMember(ids: seq<int>, id: int)
    ensures FormatInt(id) in Printed(ids) <==> id in ids
  {
    if FormatInt(id) in Printed(ids) {
      var i :| 0 <= i < |ids| && Printed(ids)[i] == FormatInt(id);
      FormatIntInjective(ids[i], id);
    }
    if id in ids {
      var i :| 0 <= i < |ids| && ids[i] == id;
      assert Printed(ids)[i] == FormatInt(id);
    }
  }
}
