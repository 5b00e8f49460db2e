/** The answers of an alias query. */
module AliasAnswers {
  datatype AliasResult = NoAlias | MayAlias | PartialAlias | MustAlias
}
