/** Column names of the Give Me Some Credit schema and of the engineered
    features derived from it. */
module Schema {

  /** The training label; it must never reach the classifier. */
  const TARGET := "SeriousDlqin2yrs"
  /** The technical row index a CSV round trip leaves behind. */
  const INDEX_COL := "Unnamed: 0"

  // Raw applicant attributes
  const UTILIZATION := "RevolvingUtilizationOfUnsecuredLines"
  const AGE := "age"
  const PAST_DUE_30_59 := "NumberOfTime30-59DaysPastDueNotWorse"
  const DEBT_RATIO := "DebtRatio"
  const MONTHLY_INCOME := "MonthlyIncome"
  const OPEN_CREDIT_LINES := "NumberOfOpenCreditLinesAndLoans"
  const LATE_90 := "NumberOfTimes90DaysLate"
  const REAL_ESTATE_LOANS := "NumberRealEstateLoansOrLines"
  const PAST_DUE_60_89 := "NumberOfTime60-89DaysPastDueNotWorse"
  const DEPENDENTS := "NumberOfDependents"

  // Engineered features
  const UTILIZATION_LOG1P := "RevolvingUtilizationOfUnsecuredLines_log1p"
  const DEBT_RATIO_LOG1P := "DebtRatio_log1p"
  const INCOME_LOG1P := "MonthlyIncome_log1p"
  const DEBT_TO_INCOME := "DebtToIncomeRatio"
  const HIGH_UTILIZATION_FLAG := "HighUtilizationFlag"
  const TOTAL_DELINQUENCY := "TotalDelinquency"
  const EVER_DELINQUENT := "EverDelinquent"
  const EVER_90_DAYS_LATE := "Ever90DaysLate"
  const MULTIPLE_DELINQUENCY := "MultipleDelinquencyFlag"
  const SEVERITY_SCORE := "DelinquencySeverityScore"
  const HIGH_DEBT_FLAG := "HighDebtFlag"
  const AGE_BIN := "AgeBin"
  const INCOME_BIN := "IncomeBin"
  const UTILIZATION_BIN := "UtilizationBin"
  const DELINQ_BIN := "DelinqBin"
  const UTILIZATION_X_DEBT := "Utilization_x_DebtRatio"
  const INCOME_X_AGE := "Income_x_Age"
  const DELINQ_X_UTILIZATION := "Delinq_x_Utilization"
  const OPEN_LINES_X_REAL_ESTATE := "OpenLines_x_RealEstate"
  const HIGH_UTIL_X_DEBT := "HighUtil_x_DebtRatio"
  const EFFECTIVE_DEBT_LOAD := "EffectiveDebtLoad"
  const CREDIT_LINE_DENSITY := "CreditLineDensity"
  const REAL_ESTATE_EXPOSURE := "RealEstateExposure"
  const FINANCIAL_STRESS := "FinancialStressIndex"
}
