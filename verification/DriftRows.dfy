/** Rows of the drift scenario, as its scripts read them from CSV; an absent column reads as "". */
module DriftRows {
  import opened ReplayEvents

  datatype DriftRow = DriftRow(
    eventId: string,
    scenarioPhase: string,
    rowLabel: string,
    oracleVerdict: string,
    isDefective: string,
    viewPairs: string,
    sourceClass: string,
    sourceTimestamp: string,
    sequenceNumber: string)

  predicate IsStableRow(row: DriftRow) { row.scenarioPhase == STABLE_BASELINE }

  predicate IsP4Row(row: DriftRow) { IsP4Phase(row.scenarioPhase) }

  /** `_is_good_row` of the drift observation */
  predicate IsGoodRow(row: DriftRow) {
    Lower(row.rowLabel) == "good" || Lower(row.oracleVerdict) == CONFORME || Lower(row.isDefective) == "false"
  }

  /** `_is_good_conforming_row` of the scenario builder */
  predicate IsGoodConformingRow(row: DriftRow) {
    && Lower(row.rowLabel) != DEFECTIVE
    && Lower(row.isDefective) != "true"
    && Lower(row.oracleVerdict) != DEFECTIVE && Lower(row.oracleVerdict) != "non_conforme"
  }

  lemma PhasesExclude(row: DriftRow)
    ensures !(IsStableRow(row) && IsP4Row(row))
  {
  }
}
