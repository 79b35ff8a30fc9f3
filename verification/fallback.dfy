/**
 * The keyword test shared by the two placeholder generators
 * (`generateFallbackFiles` and `generateFallbackLanguage`): both inspect the
 * lower-cased repository name and description with the same chain of
 * conditions, in the same priority order.
 */
module Fallback {
  import opened Text

  datatype Flavour = Web | Mod | Api | Bot | Generic

  /** The name mentions website, portfolio or the owner's handle. */
  predicate WebLike(name: string) {
    ContainsAny(ToLower(name), ["website", "portfolio", "uncletyrone"])
  }

  /** The name mentions mod or script, or the description mentions mod. */
  predicate ModLike(name: string, description: string) {
    Contains(ToLower(name), "mod") || Contains(ToLower(name), "script")
      || Contains(ToLower(description), "mod")
  }

  predicate ApiLike(name: string, description: string) {
    Contains(ToLower(description), "api") || Contains(ToLower(name), "api")
  }

  predicate BotLike(name: string, description: string) {
    Contains(ToLower(description), "bot") || Contains(ToLower(name), "bot")
  }

  /**
   * The first flavour, in the order web, mod/script, api, bot, whose keyword
   * test passes; `Generic` when none does. A `null` description is "".
   */
  function Classify(name: string, description: string): (f: Flavour)
    ensures f == Web <==> WebLike(name)
    ensures f == Mod <==> !WebLike(name) && ModLike(name, description)
    ensures f == Api <==> !WebLike(name) && !ModLike(name, description) && ApiLike(name, description)
    ensures f == Bot <==> !WebLike(name) && !ModLike(name, description) && !ApiLike(name, description)
                          && BotLike(name, description)
    ensures f == Generic <==> !WebLike(name) && !ModLike(name, description)
                              && !ApiLike(name, description) && !BotLike(name, description)
  {
    if WebLike(name) then Web
    else if ModLike(name, description) then Mod
    else if ApiLike(name, description) then Api
    else if BotLike(name, description) then Bot
    else Generic
  }
}
